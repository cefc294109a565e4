/** Every handled delivery uses up an attempt, so without new work the worker falls silent. */
module Quiet {
  import opened Common
  import opened Store
  import opened WebhookDelivery
  import opened DeliveryFacts
  import opened Workers
  import opened Creation
  import opened World
  import F = Fairness

  /** The attempts an open delivery has left. */
  function Left(s: Store, d: DeliveryId, maxAttempts: nat): nat {
    if d in s.deliveries && Open(s.deliveries[d]) && s.deliveries[d].attemptCount < maxAttempts
    then maxAttempts - s.deliveries[d].attemptCount else 0
  }

  ghost function Sum(s: Store, ids: set<DeliveryId>, maxAttempts: nat): nat {
    if ids == {} then 0 else
      Inhabited(ids);
      var d :| d in ids;
      Left(s, d, maxAttempts) + Sum(s, ids - {d}, maxAttempts)
  }

  /** The attempts left over all open deliveries. */
  ghost function Budget(s: Store, maxAttempts: nat): nat {
    Sum(s, s.deliveries.Keys, maxAttempts)
  }

  lemma {:induction false} SumDrops(s: Store, t: Store, ids: set<DeliveryId>, used: set<DeliveryId>, maxAttempts: nat)
    requires used <= ids
    requires forall d <- ids :: Left(t, d, maxAttempts) + (if d in used then 1 else 0) <= Left(s, d, maxAttempts)
    ensures Sum(t, ids, maxAttempts) + |used| <= Sum(s, ids, maxAttempts)
    decreases ids
  {
    if ids == {} {
      assert used == {};
    } else {
      Inhabited(ids);
      var d :| d in ids && Sum(s, ids, maxAttempts) == Left(s, d, maxAttempts) + Sum(s, ids - {d}, maxAttempts)
                        && Sum(t, ids, maxAttempts) == Left(t, d, maxAttempts) + Sum(t, ids - {d}, maxAttempts);
      SumDrops(s, t, ids - {d}, used - {d}, maxAttempts);
      assert d in used ==> |used| == |used - {d}| + 1;
      assert d !in used ==> used - {d} == used;
    }
  }

  /** An event that neither creates nor requeues a delivery. */
  predicate AddsNothing(e: Event) {
    e.action.OnEndpoints? || e.action.OnCalls? || e.action.OnShops? || e.action.DeliverDue?
  }

  /** How many deliveries the committed cycles of a run handled. */
  ghost function HandledIn(cfg: Config, w: World, events: seq<Event>): nat
    requires WorldOk(cfg, w)
  {
    if events == [] then 0 else
      var init, e := events[..|events| - 1], events[|events| - 1];
      var v := Exec(cfg, w, init);
      HandledIn(cfg, w, init) + if F.Commits(cfg, v, e) then |F.BatchOf(cfg, v, e)| else 0
  }

  lemma HandledUsesAnAttempt(a: Delivery, attempts: seq<int>, b: Delivery, now: int, maxAttempts: nat)
    requires ScheduleOk(a, attempts, maxAttempts) && Open(a) && 0 < maxAttempts && Handled(a, b, now, maxAttempts)
    ensures a.attemptCount < maxAttempts
    ensures Open(b) ==> b.attemptCount == a.attemptCount + 1
  {
  }

  lemma CommittedCycleUsesBudget(cfg: Config, w: World, now: int, c: HookCycle, ending: Ending)
    requires Keyed(w.store) && SchedulesOk(w.store, cfg.maxAttempts) && 0 < cfg.maxAttempts
    requires HookCycleOk(cfg, w, now, c, ending) && c.committed
    ensures
      var batch := DueBatch(w.store, now, cfg.hookLimit);
      Budget(c.store, cfg.maxAttempts) + |Ids(batch, |batch|)| <= Budget(w.store, cfg.maxAttempts)
  {
    hide ScheduleOk, ReceiptOk, Evolves, NetEvolves, DeliveredRows, Handled;
    var s, t := w.store, c.store;
    var batch := DueBatch(s, now, cfg.hookLimit);
    var ids := Ids(batch, |batch|);
    DueBatchRows(s, now, cfg.hookLimit);
    forall d <- s.deliveries
      ensures Left(t, d, cfg.maxAttempts) + (if d in ids then 1 else 0) <= Left(s, d, cfg.maxAttempts)
    {
      assert RowAfter(s, t, d, d in ids, now, cfg.maxAttempts, c.net.log);
      assert ScheduleOk(s.deliveries[d], s.trail[d].attempts, cfg.maxAttempts);
      if d in ids {
        HandledUsesAnAttempt(s.deliveries[d], s.trail[d].attempts, t.deliveries[d], now, cfg.maxAttempts);
      }
    }
    assert ids <= s.deliveries.Keys;
    SumDrops(s, t, s.deliveries.Keys, ids, cfg.maxAttempts);
  }

  lemma BudgetKept(s: Store, t: Store, maxAttempts: nat)
    requires t.deliveries.Keys == s.deliveries.Keys
    requires forall d <- s.deliveries ::
               t.deliveries[d].status == s.deliveries[d].status
                 && t.deliveries[d].attemptCount == s.deliveries[d].attemptCount
    ensures Budget(t, maxAttempts) <= Budget(s, maxAttempts)
  {
    SumDrops(s, t, s.deliveries.Keys, {}, maxAttempts);
  }

  lemma QuietStep(cfg: Config, w: World, e: Event)
    requires WorldOk(cfg, w) && AddsNothing(e)
    ensures Budget(Next(cfg, w, e).store, cfg.maxAttempts)
            + (if F.Commits(cfg, w, e) then |F.BatchOf(cfg, w, e)| else 0)
         <= Budget(w.store, cfg.maxAttempts)
  {
    hide RunHookCycle, EndpointStep, CallStep, StoreOk, CallsOk, NetOk, ReceiptsOk, NetEvolves, DueBatch, Budget,
         TotalsOk, BatchRowsOk, Evolves, ScheduleOk;
    KeyedTables(cfg, w);
    var now := Now(w, e);
    match e.action {
      case OnEndpoints(a) => EndpointBudget(w.store, a, cfg.maxAttempts);
      case OnCalls(c) =>
        CallStepFacts(cfg, w, now, c);
        BudgetKept(w.store, CallStep(w, now, c).store, cfg.maxAttempts);
      case OnShops(o) =>
      case DeliverDue(posts, ending) =>
        HookCycleFacts(cfg, w, now, posts, ending);
        if F.Commits(cfg, w, e) { CommittedCycleUsesBudget(cfg, w, now, F.CycleOf(cfg, w, e), ending); }
    }
  }

  lemma EndpointBudget(s: Store, a: EndpointAction, maxAttempts: nat)
    ensures Budget(EndpointStep(s, a), maxAttempts) <= Budget(s, maxAttempts)
  {
    hide Budget;
    BudgetKept(s, EndpointStep(s, a), maxAttempts);
  }

  /** Without new events and manual retries no more deliveries are handled than there are attempts left. */
  lemma {:induction false} RunsGoQuiet(cfg: Config, w: World, events: seq<Event>)
    requires WorldOk(cfg, w) && forall e <- events :: AddsNothing(e)
    ensures HandledIn(cfg, w, events) + Budget(Exec(cfg, w, events).store, cfg.maxAttempts)
         <= Budget(w.store, cfg.maxAttempts)
    decreases |events|
  {
    hide WorldOk, Next, Budget, F.Commits, F.BatchOf;
    if events != [] {
      var init, e := events[..|events| - 1], events[|events| - 1];
      RunsGoQuiet(cfg, w, init);
      QuietStep(cfg, Exec(cfg, w, init), e);
    }
  }
}
