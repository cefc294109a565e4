/** The ledger worker among all other processes: what its cycles achieve on every run of the world. */
module SyncRuns {
  import opened Common
  import opened Store
  import opened XrplSync
  import opened SyncFacts
  import opened SyncResults
  import opened World
  import opened Results
  import X = XrplPayments
  import I = IntentFacts
  import D = DeliveryFacts
  import C = Creation

  /** Event `n` of the run is the scan of a transaction, and sees the rows that the run has reached. */
  ghost predicate IsScan(cfg: Config, events: seq<Event>, n: nat, tx: X.Tx, step: ScanStep)
    requires Sound(cfg)
  {
    && n < |events|
    && events[n].action == OnIntents(ScanTransaction(tx, step.dbNow, step.ids))
    && step.seen == Reached(cfg, events[..n]).store
    && step.now == Now(Reached(cfg, events[..n]), events[n])
  }

  /** The scans of the worker's cycles are events of the run, in their order; `place` says which. */
  ghost predicate ScannedIn(cfg: Config, events: seq<Event>, cycles: seq<Cycle>, place: (nat, nat) -> nat)
    requires Sound(cfg)
  {
    && (forall k, j :: At(cycles, k, j) ==> IsScan(cfg, events, place(k, j), TxAt(cycles, k, j), StepAt(cycles, k, j)))
    && (forall k, j, k', j' :: At(cycles, k, j) && At(cycles, k', j') && Earlier(k, j, k', j') ==>
      place(k, j) < place(k', j'))
  }

  // ---------------------------------------------------------- interleaving

  /** The rows of a world have unique references. */
  lemma UniqueInWorld(cfg: Config, w: World)
    requires WorldOk(cfg, w)
    ensures X.UniqueReferences(w.store)
  {
    hide I.TablesOk, D.NetOk, TotalsOk, C.UniqueKeys, X.UniqueReferences;
  }

  lemma ReachedUnique(cfg: Config, events: seq<Event>)
    requires Sound(cfg)
    ensures X.UniqueReferences(Reached(cfg, events).store)
  {
    hide WorldOk, X.UniqueReferences;
    UniqueInWorld(cfg, Reached(cfg, events));
  }

  lemma ScanEvent(cfg: Config, w: World, e: Event, tx: X.Tx, dbNow: int, ids: seq<DeliveryId>)
    requires WorldOk(cfg, w) && e.action == OnIntents(ScanTransaction(tx, dbNow, ids))
    ensures Next(cfg, w, e).store == Scanned(tx, ScanStep(w.store, Now(w, e), dbNow, ids))
  {
    hide X.Process, WorldOk;
  }

  /** Once a scan has happened, everything evolves from the rows it wrote. */
  lemma AfterScan(cfg: Config, events: seq<Event>, n: nat, tx: X.Tx, step: ScanStep, m: nat)
    requires Sound(cfg) && IsScan(cfg, events, n, tx, step) && n < m <= |events|
    ensures Evolves(Scanned(tx, step), Reached(cfg, events[..m]).store)
  {
    hide WorldOk, Next, Evolves, Scanned, D.NetEvolves;
    StartOk(cfg);
    assert events[..n + 1][..|events[..n + 1]| - 1] == events[..n];
    ScanEvent(cfg, Reached(cfg, events[..n]), events[n], tx, step.dbNow, step.ids);
    assert events[..m] == events[..n + 1] + events[n + 1..m];
    LaterEvolves(cfg, events[..n + 1], events[n + 1..m]);
  }

  /** Every run gives the scanner what its results ask of the rows between two transactions. */
  lemma RunsInterleave(cfg: Config, events: seq<Event>, cycles: seq<Cycle>, place: (nat, nat) -> nat)
    requires Sound(cfg) && ScannedIn(cfg, events, cycles, place)
    ensures Interleaved(cycles) && Afterwards(cycles, Reached(cfg, events).store)
  {
    hide Reached, Evolves, Scanned, At, TxAt, StepAt, X.UniqueReferences;
    forall k, j | At(cycles, k, j) ensures X.UniqueReferences(StepAt(cycles, k, j).seen) {
      ReachedUnique(cfg, events[..place(k, j)]);
    }
    forall k, j, k', j' | At(cycles, k, j) && At(cycles, k', j') && Earlier(k, j, k', j')
      ensures Evolves(Scanned(TxAt(cycles, k, j), StepAt(cycles, k, j)), StepAt(cycles, k', j').seen)
    {
      AfterScan(cfg, events, place(k, j), TxAt(cycles, k, j), StepAt(cycles, k, j), place(k', j'));
    }
    forall k, j | At(cycles, k, j)
      ensures Evolves(Scanned(TxAt(cycles, k, j), StepAt(cycles, k, j)), Reached(cfg, events).store)
    {
      AfterScan(cfg, events, place(k, j), TxAt(cycles, k, j), StepAt(cycles, k, j), |events|);
      assert events[..|events|] == events;
    }
  }

  // --------------------------------------------------------------- results

  /** However often the worker scans again, no intent and no transaction is booked as processed twice. */
  lemma EachPaymentConfirmsOnce(cfg: Config, events: seq<Event>, cycles: seq<Cycle>, place: (nat, nat) -> nat,
                                k: nat, j: nat, i: IntentId, k': nat, j': nat, i': IntentId)
    requires Sound(cfg) && ScannedIn(cfg, events, cycles, place) && Earlier(k, j, k', j')
    requires ProcessedAt(cycles, k, j, i) && ProcessedAt(cycles, k', j', i')
    ensures i != i' && TxAt(cycles, k, j) != TxAt(cycles, k', j')
  {
    hide Reached, Interleaved, Afterwards, ScannedIn, ProcessedAt;
    RunsInterleave(cfg, events, cycles, place);
    ScansConfirmOnce(cycles, k, j, i, k', j', i');
  }

  /** When a hash names one transaction, the intents the scanner confirmed have different hashes. */
  lemma ConfirmedHashesDiffer(cfg: Config, events: seq<Event>, cycles: seq<Cycle>, place: (nat, nat) -> nat,
                              k: nat, j: nat, i: IntentId, k': nat, j': nat, i': IntentId)
    requires Sound(cfg) && ScannedIn(cfg, events, cycles, place) && Earlier(k, j, k', j')
    requires ProcessedAt(cycles, k, j, i) && ProcessedAt(cycles, k', j', i')
    requires HashesIdentify(cycles)
    ensures
      var s := Reached(cfg, events).store;
      i in s.intents && i' in s.intents && s.intents[i].hash != s.intents[i'].hash
  {
    hide Reached, Interleaved, Afterwards, ScannedIn, ProcessedAt, HashesIdentify;
    RunsInterleave(cfg, events, cycles, place);
    ScanHashesDiffer(cycles, Reached(cfg, events).store, k, j, i, k', j', i');
  }

  /**
   * End to end: once the cursor has passed a payment that parses, the database
   * has an intent it pays exactly, confirmed with its hash.
   */
  lemma PassedPaymentsAreConfirmed(cfg: Config, events: seq<Event>, h: seq<Entry>, cycles: seq<Cycle>,
                                   place: (nat, nat) -> nat, p: nat) returns (i: IntentId)
    requires Sound(cfg) && ScannedIn(cfg, events, cycles, place)
    requires HistoryOk(h) && HonestRun(h, FRESH, 0, cycles) && ClosedRun(h, cycles)
    requires p < |h| && RunCycles(FRESH, cycles).cursor.Some? && LedgerOf(h[p]) <= RunCycles(FRESH, cycles).cursor.value
    requires PayloadOf(h[p]).tx.kind == "Payment" && X.Parse(PayloadOf(h[p]).tx).Payment?
    ensures
      var s := Reached(cfg, events).store;
      && i in s.intents && s.intents[i].status == Confirmed && X.Pays(PayloadOf(h[p]).tx, s.intents[i])
      && s.intents[i].hash == Some(X.Parse(PayloadOf(h[p]).tx).detected.hash)
      && X.HashIs(PayloadOf(h[p]).tx, s.intents[i].hash.value)
  {
    hide Reached, Interleaved, Afterwards, ScannedIn, HonestRun, ClosedRun, RunCycles, X.Parse, X.Pays,
         ExtractTransactionPayload;
    RunsInterleave(cfg, events, cycles, place);
    i := PassedScansAreConfirmed(h, cycles, p, Reached(cfg, events).store);
  }

  /** From cycle `k` on, what lies before `floor` is visible to every fetch. */
  ghost predicate VisibleFrom(h: seq<Entry>, cycles: seq<Cycle>, k: nat, floor: nat)
    requires HistoryOk(h)
  {
    forall m :: k <= m < |cycles| ==> HonestCycle(h, RunCycles(FRESH, cycles[..m]).cursor, floor, cycles[m])
  }

  /** From cycle `k` on, every scan comes after the first `n` events of the run. */
  ghost predicate ScansAfter(cycles: seq<Cycle>, place: (nat, nat) -> nat, k: nat, n: nat) {
    forall m, j :: k <= m && At(cycles, m, j) ==> n <= place(m, j)
  }

  lemma {:induction false} CyclesSplit(s: SyncState, a: seq<Cycle>, b: seq<Cycle>)
    ensures RunCycles(s, a + b) == RunCycles(RunCycles(s, a), b)
    decreases |b|
  {
    hide RunCycle;
    if b == [] {
      assert a + b == a;
    } else {
      assert (a + b)[..|a + b| - 1] == a + b[..|b| - 1];
      CyclesSplit(s, a, b[..|b| - 1]);
    }
  }

  lemma LaterCursor(cycles: seq<Cycle>, k: nat, m: nat)
    requires k + m <= |cycles|
    ensures RunCycles(RunCycles(FRESH, cycles[..k]), cycles[k..][..m]) == RunCycles(FRESH, cycles[..k + m])
  {
    hide RunCycles;
    assert cycles[..k + m] == cycles[..k] + cycles[k..][..m];
    CyclesSplit(FRESH, cycles[..k], cycles[k..][..m]);
  }

  /** The cycles from `k` on are an honest run of their own. */
  lemma LaterCycles(h: seq<Entry>, cycles: seq<Cycle>, k: nat, floor: nat)
    requires HistoryOk(h) && k <= |cycles| && VisibleFrom(h, cycles, k, floor)
    ensures HonestRun(h, RunCycles(FRESH, cycles[..k]), floor, cycles[k..])
    ensures RunCycles(FRESH, cycles) == RunCycles(RunCycles(FRESH, cycles[..k]), cycles[k..])
  {
    hide RunCycles, HonestCycle, HistoryOk;
    var s, later := RunCycles(FRESH, cycles[..k]), cycles[k..];
    forall m | 0 <= m < |later| ensures HonestCycle(h, RunCycles(s, later[..m]).cursor, floor, later[m]) {
      LaterCursor(cycles, k, m);
    }
    LaterCursor(cycles, k, |later|);
    assert cycles[..k + |later|] == cycles && later[..|later|] == later;
  }

  /** Every scan of a cycle from `k` on sees rows that evolve from those after `n` events. */
  lemma LaterScans(cfg: Config, events: seq<Event>, cycles: seq<Cycle>, place: (nat, nat) -> nat, k: nat, n: nat,
                   m: nat)
    requires Sound(cfg) && ScannedIn(cfg, events, cycles, place)
    requires k <= m < |cycles| && n <= |events| && ScansAfter(cycles, place, k, n)
    ensures SeesLater(cycles[m], Reached(cfg, events[..n]).store)
  {
    hide Reached, Evolves, X.UniqueReferences, ScanCount, D.NetEvolves;
    forall j | 0 <= j < ScanCount(cycles[m])
      ensures X.UniqueReferences(cycles[m].steps[j].seen)
              && Evolves(Reached(cfg, events[..n]).store, cycles[m].steps[j].seen)
    {
      assert At(cycles, m, j);
      var q := place(m, j);
      ReachedUnique(cfg, events[..q]);
      assert events[..q] == events[..n] + events[n..q];
      LaterEvolves(cfg, events[..n], events[n..q]);
    }
  }

  /**
   * At some point of a run a payment is without hope, say because its parse
   * raises or its intent has expired, while it is visible and above the
   * cursor.  Then every later cycle fails and the cursor stays for ever.
   */
  lemma HopelessPaymentStalls(cfg: Config, events: seq<Event>, h: seq<Entry>, cycles: seq<Cycle>,
                              place: (nat, nat) -> nat, k: nat, n: nat, floor: nat, p: nat)
    requires Sound(cfg) && ScannedIn(cfg, events, cycles, place)
    requires HistoryOk(h) && HonestRun(h, FRESH, 0, cycles) && k <= |cycles| && VisibleFrom(h, cycles, k, floor)
    requires n <= |events| && ScansAfter(cycles, place, k, n)
    requires Ahead(h, RunCycles(FRESH, cycles[..k]).cursor, floor, p)
    requires Hopeless(Reached(cfg, events[..n]).store, PayloadOf(h[p]).tx)
    ensures Stalled(RunCycles(FRESH, cycles[..k]), RunCycles(FRESH, cycles), Reporting(cycles[k..]))
  {
    hide Reached, RunCycles, HonestRun, Hopeless, ScannedIn, ScansAfter, VisibleFrom, SeesLater, Reporting, Stalled,
         ExtractTransactionPayload;
    Prefix(h, FRESH, 0, cycles, k);
    CursorNeverMovesBack(h, FRESH, cycles[..k]);
    LaterCycles(h, cycles, k, floor);
    var t := Reached(cfg, events[..n]).store;
    forall l <- cycles[k..] ensures SeesLater(l, t) {
      var m :| 0 <= m < |cycles[k..]| && cycles[k..][m] == l;
      LaterScans(cfg, events, cycles, place, k, n, k + m);
    }
    HopelessStalls(h, RunCycles(FRESH, cycles[..k]), floor, p, t, cycles[k..]);
  }

  /** A scan of the run, and where the scans of later cycles are. */
  lemma ScanAt(cfg: Config, events: seq<Event>, cycles: seq<Cycle>, place: (nat, nat) -> nat, k: nat, j: nat)
    requires Sound(cfg) && ScannedIn(cfg, events, cycles, place) && At(cycles, k, j)
    ensures IsScan(cfg, events, place(k, j), TxAt(cycles, k, j), StepAt(cycles, k, j))
    ensures place(k, j) < |events| && X.UniqueReferences(StepAt(cycles, k, j).seen)
    ensures ScansAfter(cycles, place, k + 1, place(k, j) + 1)
  {
    hide Reached, X.UniqueReferences, ScanCount, At;
    ReachedUnique(cfg, events[..place(k, j)]);
  }

  /**
   * Cycle `k` confirmed something and yet did not move the cursor: another
   * payment of the batch failed, or the worker died in between.  Then every
   * later cycle fails and the cursor stays for ever, because the confirmed
   * payment is fetched again each time and can no longer be matched.
   */
  lemma ConfirmedAheadOfCursorStalls(cfg: Config, events: seq<Event>, h: seq<Entry>, cycles: seq<Cycle>,
                                     place: (nat, nat) -> nat, k: nat, j: nat, i: IntentId)
    requires Sound(cfg) && ScannedIn(cfg, events, cycles, place)
    requires HistoryOk(h) && HonestRun(h, FRESH, 0, cycles) && ProcessedAt(cycles, k, j, i)
    requires RunCycles(FRESH, cycles[..k + 1]).cursor == RunCycles(FRESH, cycles[..k]).cursor
    requires cycles[k].answers != []
    requires VisibleFrom(h, cycles, k + 1, End(RunCycles(FRESH, cycles[..k]).cursor, cycles[k].answers))
    ensures Stalled(RunCycles(FRESH, cycles[..k + 1]), RunCycles(FRESH, cycles), Reporting(cycles[k + 1..]))
  {
    hide Reached, RunCycles, Hopeless, VisibleFrom, Reporting, Stalled, VerdictOn, Scanned, ExtractTransactionPayload,
         Honest, LastVisible, Evolves, X.UniqueReferences, ScannedIn, IsScan, ScansAfter;
    var s, c := RunCycles(FRESH, cycles[..k]), cycles[k];
    Prefix(h, FRESH, 0, cycles, k);
    CursorNeverMovesBack(h, FRESH, cycles[..k]);
    var n := place(k, j) + 1;
    ScanAt(cfg, events, cycles, place, k, j);
    var p := TakenIsAhead(h, s, c, j, i);
    AfterScan(cfg, events, n - 1, TxAt(cycles, k, j), StepAt(cycles, k, j), n);
    HopelessPersists(Scanned(TxAt(cycles, k, j), StepAt(cycles, k, j)), Reached(cfg, events[..n]).store,
                     PayloadOf(h[p]).tx);
    HopelessPaymentStalls(cfg, events, h, cycles, place, k + 1, n, End(s.cursor, c.answers), p);
  }
}
