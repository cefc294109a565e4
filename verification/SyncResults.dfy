/** Whole runs of the ledger worker: replays, stalls, double payments, counters, and half-shown ledgers. */
module SyncResults {
  import opened Common
  import opened Store
  import opened PaymentIntents
  import opened XrplSync
  import opened SyncFacts
  import X = XrplPayments

  // ------------------------------------------------------------ the cursor

  /** The cursor never moves back. */
  lemma {:induction false} CursorNeverMovesBack(h: seq<Entry>, s: SyncState, cycles: seq<Cycle>)
    requires HistoryOk(h) && CursorOk(s.cursor) && HonestRun(h, s, 0, cycles)
    ensures
      var cursor := RunCycles(s, cycles).cursor;
      CursorOk(cursor) && (s.cursor.Some? ==> cursor.Some? && s.cursor.value <= cursor.value)
    decreases |cycles|
  {
    hide RunCycle, HonestCycle, Clean;
    if cycles != [] {
      var init, c := cycles[..|cycles| - 1], cycles[|cycles| - 1];
      Shorter(h, s, 0, cycles);
      CursorNeverMovesBack(h, s, init);
      CursorMove(h, RunCycles(s, init), c);
    }
  }

  lemma CursorMove(h: seq<Entry>, s: SyncState, c: Cycle)
    requires HistoryOk(h) && CursorOk(s.cursor) && HonestCycle(h, s.cursor, 0, c)
    ensures
      var cursor := RunCycle(s, c).cursor;
      CursorOk(cursor) && (s.cursor.Some? ==> cursor.Some? && s.cursor.value <= cursor.value)
  {
    hide RunCycle, Clean;
    CursorStep(h, s, 0, c);
  }

  /** A finished cycle moves the cursor exactly when it fetched something and nothing failed. */
  lemma FinishedCycleAdvances(h: seq<Entry>, s: SyncState, c: Cycle)
    requires HistoryOk(h) && CursorOk(s.cursor) && HonestCycle(h, s.cursor, 0, c) && c.ending == Finished
    ensures RunCycle(s, c).cursor != s.cursor <==> Clean(c) && Fetch(c.answers) != Some([])
  {
    hide HonestFetch, ExtractMaxLedgerIndex, ScanFirst, Start, VerdictOn, ExtractTransactionPayload;
    CursorStep(h, s, 0, c);
    if Clean(c) {
      var txs := Fetch(c.answers).value;
      EverythingIsBooked(txs, c.steps, |txs|);
      FetchIsExact(h, s.cursor, 0, c.limit, c.answers);
      NewestLedger(h, s.cursor, From(h, s.cursor, c.answers), End(s.cursor, c.answers), txs);
    }
  }

  // --------------------------------------------------------------- replays

  /**
   * A payment that cannot be booked as processed, now or later: its parse
   * raises, or the intent it names is settled or wants another amount,
   * currency or destination.
   */
  ghost predicate Hopeless(s: Store, tx: X.Tx) {
    && tx.kind == "Payment"
    && (X.Parse(tx).Raised? || (X.Parse(tx).Payment? && exists i :: Refuses(s, i, X.Parse(tx).detected)))
  }

  /** The intent a payment names does not match it. */
  ghost predicate Refuses(s: Store, i: IntentId, d: X.Detected) {
    && i in s.intents && s.intents[i].reference == Upper(d.reference)
    && d.amount.Finite? && !X.Matches(s.intents[i], d)
  }

  /** Such a payment, scanned again or for the first time, is booked as failed and changes nothing. */
  lemma HopelessFails(tx: X.Tx, step: ScanStep)
    requires X.UniqueReferences(step.seen) && Hopeless(step.seen, tx)
    ensures VerdictOn(tx, step) == X.Verdict.Failed && Scanned(tx, step) == step.seen
  {
    hide X.Parse, X.SchemaAccepts, X.Matches, Confirm, Upper;
    if X.Parse(tx).Payment? {
      X.ParsedFacts(tx);
      var d := X.Parse(tx).detected;
      var i :| Refuses(step.seen, i, d);
      assert X.ByReference(step.seen, Upper(d.reference)) == Some(i);
    }
  }

  /** Nothing that any process does makes such a payment acceptable. */
  lemma HopelessPersists(s: Store, t: Store, tx: X.Tx)
    requires Evolves(s, t) && Hopeless(s, tx)
    ensures Hopeless(t, tx)
  {
    hide X.Parse;
    if X.Parse(tx).Payment? {
      var d := X.Parse(tx).detected;
      var i :| Refuses(s, i, d);
      assert IntentEvolves(s.intents[i], t.intents[i]);
      assert Refuses(t, i, d);
    }
  }

  /** No intent has the reference that the payment gives. */
  ghost predicate Unknown(s: Store, tx: X.Tx) {
    X.Parse(tx).Payment? && forall i <- s.intents :: s.intents[i].reference != Upper(X.Parse(tx).detected.reference)
  }

  /**
   * A payment fails for good, or because no intent has its reference yet, or
   * because the a delivery of its confirmation drew an id that is missing or taken.
   */
  lemma FailuresHaveThreeCauses(tx: X.Tx, step: ScanStep)
    requires X.UniqueReferences(step.seen) && tx.kind == "Payment"
    ensures VerdictOn(tx, step) == X.Verdict.Failed
       <==> || Hopeless(step.seen, tx) || Unknown(step.seen, tx)
            || (&& X.Parse(tx).Payment?
                && exists i <- step.seen.intents ::
                     && step.seen.intents[i].reference == Upper(X.Parse(tx).detected.reference)
                     && !FreshIds(step.seen, step.ids, EnabledCount(step.seen, step.seen.intents[i].merchant)))
  {
    hide X.Parse, X.SchemaAccepts, Confirm, Upper, FreshIds, EnabledCount;
    if X.Parse(tx).Payment? {
      X.ParsedFacts(tx);
      var d := X.Parse(tx).detected;
      var found := X.ByReference(step.seen, Upper(d.reference));
      if found.Some? {
        ConfirmReplies(step.seen, found.value, d.hash, step.now, step.dbNow, step.ids);
        assert Refuses(step.seen, found.value, d) <==> !X.Matches(step.seen.intents[found.value], d);
      }
    }
  }

  /** What a processed transaction leaves: the intent it pays, confirmed with its hash. */
  lemma ProcessedConfirms(tx: X.Tx, step: ScanStep, i: IntentId)
    requires X.UniqueReferences(step.seen) && VerdictOn(tx, step) == X.Processed(i)
    ensures i in step.seen.intents && step.seen.intents[i].status == Pending && X.Pays(tx, step.seen.intents[i])
    ensures
      var t := Scanned(tx, step);
      && i in t.intents
      && t.intents[i] == step.seen.intents[i].(status := Confirmed, hash := Some(X.Parse(tx).detected.hash))
      && X.Parse(tx).Payment? && X.HashIs(tx, X.Parse(tx).detected.hash)
      && Hopeless(t, tx)
  {
    hide X.Parse, X.SchemaAccepts, Terminate, X.Pays, X.HashIs, X.Worth, X.MemoSays;
    X.ProcessedIffPaid(step.seen, tx, i, step.now, step.dbNow, step.ids);
    PaysNamed(tx, step.seen.intents[i]);
    var d := X.Parse(tx).detected;
    var row := step.seen.intents[i].(status := Confirmed, hash := Some(d.hash));
    EnqueueKeepsEndpoints(step.seen, i, row, step.now, step.dbNow, step.ids);
    assert Scanned(tx, step) == Confirm(step.seen, i, d.hash, step.now, step.dbNow, step.ids).0;
    X.ParsedFacts(tx);
    assert Refuses(Scanned(tx, step), i, d);
  }

  lemma PaysNamed(tx: X.Tx, i: Intent)
    requires X.Pays(tx, i)
    ensures tx.kind == "Payment" && X.Parse(tx).Payment? && i.reference == Upper(X.Parse(tx).detected.reference)
  {
    hide X.Parse, X.Pays;
    X.PaysIffMatches(tx, i);
  }

  // ---------------------------------------------------------------- stalls

  /** How many transactions the cycle got to. */
  function ScanCount(c: Cycle): (n: nat)
    ensures n <= |c.steps|
  {
    if Fetch(c.answers).None? then 0 else Reach(Fetch(c.answers).value, c.steps)
  }

  /** Every scan of the cycle sees rows that leave the payment without hope. */
  ghost predicate SeesHopeless(c: Cycle, tx: X.Tx) {
    forall j :: 0 <= j < ScanCount(c) ==> X.UniqueReferences(c.steps[j].seen) && Hopeless(c.steps[j].seen, tx)
  }

  /** Every scan of the cycle sees rows that come after `t`. */
  ghost predicate SeesLater(c: Cycle, t: Store) {
    forall j :: 0 <= j < ScanCount(c) ==> X.UniqueReferences(c.steps[j].seen) && Evolves(t, c.steps[j].seen)
  }

  /** Position `p` is visible and above the cursor. */
  ghost predicate Ahead(h: seq<Entry>, cursor: Option<int>, floor: nat, p: nat)
    requires HistoryOk(h)
  {
    p < floor && p < |h| && (cursor.Some? ==> cursor.value < LedgerOf(h[p]))
  }

  /** The cycle lives to count its success or failure. */
  predicate Reports(c: Cycle) {
    !c.ending.Killed? && (Fetch(c.answers).Some? ==> |Fetch(c.answers).value| <= |c.steps|)
  }

  function Reporting(cycles: seq<Cycle>): nat
    decreases |cycles|
  {
    if cycles == [] then 0
    else Reporting(cycles[..|cycles| - 1]) + if Reports(cycles[|cycles| - 1]) then 1 else 0
  }

  /** The state after cycles that all failed, as far as they lived to say so. */
  ghost predicate Stalled(s: SyncState, t: SyncState, failures: nat) {
    t.cursor == s.cursor && t.succeeded == s.succeeded && t.failedCycles == s.failedCycles + failures
  }

  lemma BlockedCycle(h: seq<Entry>, s: SyncState, floor: nat, c: Cycle, p: nat)
    requires HistoryOk(h) && CursorOk(s.cursor) && HonestCycle(h, s.cursor, floor, c)
    requires Ahead(h, s.cursor, floor, p) && SeesHopeless(c, PayloadOf(h[p]).tx)
    ensures !Clean(c) && Stalled(s, RunCycle(s, c), if Reports(c) then 1 else 0)
  {
    hide Fetch, HonestFetch, ExtractMaxLedgerIndex, ScanFirst, Start, VerdictOn, ExtractTransactionPayload, LastVisible,
         Hopeless, X.UniqueReferences, Scanned;
    if Fetch(c.answers).Some? && |Fetch(c.answers).value| <= |c.steps| {
      var txs := Fetch(c.answers).value;
      EverythingIsBooked(txs, c.steps, |txs|);
      FetchIsExact(h, s.cursor, floor, c.limit, c.answers);
      var from, end := From(h, s.cursor, c.answers), End(s.cursor, c.answers);
      var j := Place(s.cursor, from, end, p);
      assert txs[j] == PayloadOf(h[p]);
      HopelessFails(txs[j].tx, c.steps[j]);
    }
  }

  /** While a visible payment above the cursor is without hope, every cycle fails and the cursor stays. */
  lemma {:induction false} BlockedRun(h: seq<Entry>, s: SyncState, floor: nat, cycles: seq<Cycle>, p: nat)
    requires HistoryOk(h) && CursorOk(s.cursor) && HonestRun(h, s, floor, cycles)
    requires Ahead(h, s.cursor, floor, p) && forall c <- cycles :: SeesHopeless(c, PayloadOf(h[p]).tx)
    ensures Stalled(s, RunCycles(s, cycles), Reporting(cycles))
    decreases |cycles|
  {
    hide RunCycle, HonestCycle, Clean, SeesHopeless, Reports;
    if cycles != [] {
      var init, c := cycles[..|cycles| - 1], cycles[|cycles| - 1];
      Shorter(h, s, floor, cycles);
      BlockedRun(h, s, floor, init, p);
      BlockedCycle(h, RunCycles(s, init), floor, c, p);
    }
  }

  /** The place in the history of a fetched transaction. */
  lemma Origin(h: seq<Entry>, cursor: Option<int>, floor: nat, limit: nat, answers: seq<Answer>, j: nat)
    returns (p: nat)
    requires HistoryOk(h) && CursorOk(cursor)
    requires HonestFetch(h, cursor, floor, limit, answers) && Fetch(answers).Some? && j < |Fetch(answers).value|
    ensures p < |h| && answers[0].visible <= |h| && PayloadOf(h[p]) == Fetch(answers).value[j]
    ensures From(h, cursor, answers) <= p < End(cursor, answers)
    ensures cursor.Some? ==> cursor.value < LedgerOf(h[p])
  {
    hide Fetch, HonestFetch, LastVisible, ExtractTransactionPayload;
    FetchIsExact(h, cursor, floor, limit, answers);
    var from, end := From(h, cursor, answers), End(cursor, answers);
    p := if cursor.None? then end - 1 - j else from + j;
    assert Place(cursor, from, end, p) == j;
  }

  /** The payment at position `p` is without hope in `t`, and all later steps see rows that come after `t`. */
  lemma HopelessStalls(h: seq<Entry>, s: SyncState, floor: nat, p: nat, t: Store, later: seq<Cycle>)
    requires HistoryOk(h) && CursorOk(s.cursor) && HonestRun(h, s, floor, later) && Ahead(h, s.cursor, floor, p)
    requires Hopeless(t, PayloadOf(h[p]).tx)
    requires forall l <- later :: SeesLater(l, t)
    ensures Stalled(s, RunCycles(s, later), Reporting(later))
  {
    hide ScanCount, RunCycles, HonestRun, Hopeless, Evolves, X.UniqueReferences, ExtractTransactionPayload, Reporting;
    var tx := PayloadOf(h[p]).tx;
    forall l <- later ensures SeesHopeless(l, tx) {
      forall j | 0 <= j < ScanCount(l) ensures Hopeless(l.steps[j].seen, tx) {
        HopelessPersists(t, l.steps[j].seen, tx);
      }
    }
    BlockedRun(h, s, floor, later, p);
  }

  /** A payment that a cycle confirmed without moving the cursor is visible, above the cursor and without hope. */
  lemma TakenIsAhead(h: seq<Entry>, s: SyncState, c: Cycle, j: nat, i: IntentId) returns (p: nat)
    requires HistoryOk(h) && CursorOk(s.cursor) && HonestCycle(h, s.cursor, 0, c)
    requires c.answers != [] && Fetch(c.answers).Some? && j < Reach(Fetch(c.answers).value, c.steps)
    requires X.UniqueReferences(c.steps[j].seen)
    requires VerdictOn(Fetch(c.answers).value[j].tx, c.steps[j]) == X.Processed(i)
    ensures Ahead(h, s.cursor, End(s.cursor, c.answers), p)
    ensures Hopeless(Scanned(Fetch(c.answers).value[j].tx, c.steps[j]), PayloadOf(h[p]).tx)
  {
    hide Fetch, HonestFetch, VerdictOn, Scanned, Hopeless, X.UniqueReferences, LastVisible, ExtractTransactionPayload;
    ProcessedConfirms(Fetch(c.answers).value[j].tx, c.steps[j], i);
    p := Origin(h, s.cursor, 0, c.limit, c.answers, j);
  }

  // ------------------------------------------------------- all scans of a run

  /** Cycle `k` of the run got to its transaction `j`. */
  ghost predicate At(cycles: seq<Cycle>, k: nat, j: nat) {
    k < |cycles| && j < ScanCount(cycles[k])
  }

  ghost function TxAt(cycles: seq<Cycle>, k: nat, j: nat): X.Tx
    requires At(cycles, k, j)
  {
    Fetch(cycles[k].answers).value[j].tx
  }

  ghost function StepAt(cycles: seq<Cycle>, k: nat, j: nat): ScanStep
    requires At(cycles, k, j)
  {
    cycles[k].steps[j]
  }

  predicate Earlier(k: nat, j: nat, k': nat, j': nat) {
    k < k' || (k == k' && j < j')
  }

  /**
   * Between two scans the other processes may do anything that keeps the
   * relation every event of a run keeps, and references stay unique.
   */
  ghost predicate Interleaved(cycles: seq<Cycle>) {
    && (forall k, j :: At(cycles, k, j) ==> X.UniqueReferences(StepAt(cycles, k, j).seen))
    && (forall k, j, k', j' :: At(cycles, k, j) && At(cycles, k', j') && Earlier(k, j, k', j') ==>
          Evolves(Scanned(TxAt(cycles, k, j), StepAt(cycles, k, j)), StepAt(cycles, k', j').seen))
  }

  ghost predicate ProcessedAt(cycles: seq<Cycle>, k: nat, j: nat, i: IntentId) {
    At(cycles, k, j) && VerdictOn(TxAt(cycles, k, j), StepAt(cycles, k, j)) == X.Processed(i)
  }

  /** Whatever is scanned again confirms nothing again: no intent and no transaction is booked as processed twice. */
  lemma ScansConfirmOnce(cycles: seq<Cycle>, k: nat, j: nat, i: IntentId, k': nat, j': nat, i': IntentId)
    requires Interleaved(cycles) && Earlier(k, j, k', j')
    requires ProcessedAt(cycles, k, j, i) && ProcessedAt(cycles, k', j', i')
    ensures i != i' && TxAt(cycles, k, j) != TxAt(cycles, k', j')
  {
    hide VerdictOn, Scanned, At, Hopeless, X.UniqueReferences, X.Pays, TxAt, StepAt;
    var tx, step := TxAt(cycles, k, j), StepAt(cycles, k, j);
    var tx', step' := TxAt(cycles, k', j'), StepAt(cycles, k', j');
    ProcessedConfirms(tx, step, i);
    ProcessedConfirms(tx', step', i');
    assert Evolves(Scanned(tx, step), step'.seen);
    assert IntentEvolves(Scanned(tx, step).intents[i], step'.seen.intents[i]);
    HopelessPersists(Scanned(tx, step), step'.seen, tx);
    assert tx != tx' by {
      if tx == tx' { HopelessFails(tx, step'); }
    }
  }

  /** The rows `t` come after every scan of the run. */
  ghost predicate Afterwards(cycles: seq<Cycle>, t: Store) {
    forall k, j :: At(cycles, k, j) ==> Evolves(Scanned(TxAt(cycles, k, j), StepAt(cycles, k, j)), t)
  }

  /** A processed payment stays on record: its intent is confirmed with its hash, and the amounts are equal. */
  lemma ProcessedStays(cycles: seq<Cycle>, t: Store, k: nat, j: nat, i: IntentId)
    requires Interleaved(cycles) && Afterwards(cycles, t) && ProcessedAt(cycles, k, j, i)
    ensures X.Parse(TxAt(cycles, k, j)).Payment?
    ensures i in t.intents && t.intents[i].status == Confirmed && X.Pays(TxAt(cycles, k, j), t.intents[i])
    ensures t.intents[i].hash == Some(X.Parse(TxAt(cycles, k, j)).detected.hash)
    ensures X.HashIs(TxAt(cycles, k, j), t.intents[i].hash.value)
  {
    hide VerdictOn, Scanned, At, Hopeless, X.UniqueReferences, X.Parse, TxAt, StepAt, X.HashIs, X.Worth,
         X.MemoSays;
    var tx, step := TxAt(cycles, k, j), StepAt(cycles, k, j);
    ProcessedConfirms(tx, step, i);
    assert Evolves(Scanned(tx, step), t);
    assert IntentEvolves(Scanned(tx, step).intents[i], t.intents[i]);
  }

  /** Among the scanned payments a hash names one transaction. */
  ghost predicate HashesIdentify(cycles: seq<Cycle>) {
    forall a, b, a', b' ::
      && At(cycles, a, b) && At(cycles, a', b')
      && X.Parse(TxAt(cycles, a, b)).Payment? && X.Parse(TxAt(cycles, a', b')).Payment?
      && X.Parse(TxAt(cycles, a, b)).detected.hash == X.Parse(TxAt(cycles, a', b')).detected.hash
      ==> TxAt(cycles, a, b) == TxAt(cycles, a', b')
  }

  /** When a hash names one transaction, the intents the scanner confirmed have different hashes. */
  lemma ScanHashesDiffer(cycles: seq<Cycle>, t: Store, k: nat, j: nat, i: IntentId, k': nat, j': nat, i': IntentId)
    requires Interleaved(cycles) && Afterwards(cycles, t) && Earlier(k, j, k', j')
    requires ProcessedAt(cycles, k, j, i) && ProcessedAt(cycles, k', j', i')
    requires HashesIdentify(cycles)
    ensures i in t.intents && i' in t.intents && t.intents[i].hash != t.intents[i'].hash
  {
    hide VerdictOn, Scanned, At, Hopeless, X.UniqueReferences, X.Parse, X.Pays, TxAt, StepAt;
    ScansConfirmOnce(cycles, k, j, i, k', j', i');
    ProcessedStays(cycles, t, k, j, i);
    ProcessedStays(cycles, t, k', j', i');
  }

  /**
   * End to end: once the cursor has passed a payment that parses, there is an
   * intent it pays to the drop, confirmed with its hash, in all later rows.
   */
  lemma PassedScansAreConfirmed(h: seq<Entry>, cycles: seq<Cycle>, p: nat, t: Store) returns (i: IntentId)
    requires HistoryOk(h) && HonestRun(h, FRESH, 0, cycles) && ClosedRun(h, cycles)
    requires Interleaved(cycles) && Afterwards(cycles, t)
    requires p < |h| && RunCycles(FRESH, cycles).cursor.Some? && LedgerOf(h[p]) <= RunCycles(FRESH, cycles).cursor.value
    requires PayloadOf(h[p]).tx.kind == "Payment" && X.Parse(PayloadOf(h[p]).tx).Payment?
    ensures i in t.intents && t.intents[i].status == Confirmed && X.Pays(PayloadOf(h[p]).tx, t.intents[i])
    ensures t.intents[i].hash == Some(X.Parse(PayloadOf(h[p]).tx).detected.hash)
    ensures X.HashIs(PayloadOf(h[p]).tx, t.intents[i].hash.value)
  {
    hide VerdictOn, Scanned, Hopeless, X.UniqueReferences, X.Parse, X.Pays, RunCycles, HonestRun, ClosedRun,
         Interleaved, Afterwards, ExtractTransactionPayload, LastVisible;
    NothingIsMissed(h, cycles, p);
    var k :| 0 <= k < |cycles| && Cleared(h, RunCycles(FRESH, cycles[..k]).cursor, cycles[k], p);
    var cursor, c := RunCycles(FRESH, cycles[..k]).cursor, cycles[k];
    var j := Place(cursor, From(h, cursor, c.answers), End(cursor, c.answers), p);
    assert At(cycles, k, j) && TxAt(cycles, k, j) == PayloadOf(h[p]).tx;
    i := PaymentVerdict(TxAt(cycles, k, j), StepAt(cycles, k, j));
    ProcessedStays(cycles, t, k, j, i);
  }

  /** A payment that parses is never skipped. */
  lemma PaymentVerdict(tx: X.Tx, step: ScanStep) returns (i: IntentId)
    requires tx.kind == "Payment" && X.Parse(tx).Payment? && VerdictOn(tx, step) != X.Verdict.Failed
    ensures VerdictOn(tx, step) == X.Processed(i)
  {
    hide X.Parse, X.Detect;
    X.ParsedFacts(tx);
    i := VerdictOn(tx, step).intent;
  }

  // --------------------------------------------------------------- counters

  function Booked(s: SyncState): nat {
    s.processed + s.skipped + s.failed
  }

  /** The cycle fetched something and raised after its scan, so its verdicts were never counted. */
  predicate LosesBooks(c: Cycle) {
    c.ending.RaisedLate? && Fetch(c.answers).Some? && 0 < |Fetch(c.answers).value| <= |c.steps|
  }

  /** fetched >= processed + skipped + failed, with equality exactly when no cycle aborted after fetching. */
  lemma {:induction false} FetchedCoversBooked(cycles: seq<Cycle>)
    ensures
      var s := RunCycles(FRESH, cycles);
      && Booked(s) <= s.fetched
      && (s.fetched == Booked(s) <==> forall c <- cycles :: !LosesBooks(c))
    decreases |cycles|
  {
    hide RunCycle, LosesBooks;
    if cycles != [] {
      var init, c := cycles[..|cycles| - 1], cycles[|cycles| - 1];
      assert cycles == init + [c];
      FetchedCoversBooked(init);
      CycleBooks(RunCycles(FRESH, init), c);
    }
  }

  /** A finished cycle adds what it fetched, what it confirmed, and one success or one failure. */
  lemma FinishedCycleBooks(s: SyncState, c: Cycle)
    requires c.ending == Finished && Fetch(c.answers).Some? && |Fetch(c.answers).value| <= |c.steps|
    ensures
      var txs := Fetch(c.answers).value;
      var r := ScanFirst(txs, c.steps, |txs|);
      var t := RunCycle(s, c);
      && t.fetched == s.fetched + |txs|
      && t.processed == s.processed + |r.confirmed|
      && (forall i :: i in r.confirmed <==>
            exists j :: 0 <= j < |txs| && VerdictOn(txs[j].tx, c.steps[j]) == X.Processed(i))
      && (t.failed == s.failed <==> Clean(c))
      && Booked(t) == Booked(s) + |txs|
      && t.succeeded - s.succeeded == (if Clean(c) then 1 else 0)
        && t.failedCycles - s.failedCycles == (if Clean(c) then 0 else 1)
  {
    hide Fetch, ScanFirst, ExtractMaxLedgerIndex, VerdictOn;
    EverythingIsBooked(Fetch(c.answers).value, c.steps, |Fetch(c.answers).value|);
  }

  /** The cycle scanned all it fetched and lived to report it. */
  predicate Whole(c: Cycle) {
    Fetch(c.answers).Some? && |Fetch(c.answers).value| <= |c.steps| && !c.ending.Killed?
  }

  /**
   * What each way of ending counts: a success for a finished clean cycle, a
   * failure for every other cycle that lives to report, and what was fetched
   * whenever all of it was scanned.  A cycle that does not report counts nothing.
   */
  lemma EveryEndingCounts(s: SyncState, c: Cycle)
    ensures
      var t := RunCycle(s, c);
      && t.succeeded == s.succeeded + (if Whole(c) && c.ending == Finished && Clean(c) then 1 else 0)
      && t.failedCycles - s.failedCycles
         == (if Reports(c) && !(Whole(c) && c.ending == Finished && Clean(c)) then 1 else 0)
      && t.fetched == s.fetched + (if Whole(c) then |Fetch(c.answers).value| else 0)
      && (!(Whole(c) && c.ending == Finished) ==> Booked(t) == Booked(s))
      && (c.ending == Finished || (c.ending.stored && Clean(c)) || t.cursor == s.cursor)
      && (c.ending != Finished && c.ending.stored ==> t.cursor == RunCycle(s, c.(ending := Finished)).cursor)
  {
    hide Fetch, ScanFirst, ExtractMaxLedgerIndex, VerdictOn;
    if Fetch(c.answers).Some? && |Fetch(c.answers).value| <= |c.steps| {
      EverythingIsBooked(Fetch(c.answers).value, c.steps, |Fetch(c.answers).value|);
    }
  }

  lemma CycleBooks(s: SyncState, c: Cycle)
    ensures
      var t := RunCycle(s, c);
      && t.fetched - Booked(t) >= s.fetched - Booked(s)
      && (t.fetched - Booked(t) == s.fetched - Booked(s) <==> !LosesBooks(c))
  {
    hide Fetch, ScanFirst, ExtractMaxLedgerIndex;
    if Fetch(c.answers).Some? && |Fetch(c.answers).value| <= |c.steps| {
      EverythingIsBooked(Fetch(c.answers).value, c.steps, |Fetch(c.answers).value|);
    }
  }

  // ------------------------------------------------------ half-shown ledgers

  /** What lies at or below the cursor is never fetched again. */
  lemma BehindTheCursorIsNotFetched(h: seq<Entry>, s: SyncState, later: seq<Cycle>, k: nat, p: nat)
    requires HistoryOk(h) && CursorOk(s.cursor) && HonestRun(h, s, 0, later) && k < |later|
    requires p < |h| && s.cursor.Some? && LedgerOf(h[p]) <= s.cursor.value
    ensures !Fetches(h, RunCycles(s, later[..k]).cursor, later[k], p)
  {
    hide RunCycle, Honest, ExtractTransactionPayload, Fetch, LastVisible, Holds;
    Prefix(h, s, 0, later, k);
    CursorNeverMovesBack(h, s, later[..k]);
    var cursor := RunCycles(s, later[..k]).cursor;
    if Fetch(later[k].answers).Some? { FetchIsExact(h, cursor, 0, later[k].limit, later[k].answers); }
  }

  /** The first cycles of an honest run are an honest run. */
  lemma Prefix(h: seq<Entry>, s: SyncState, floor: nat, cycles: seq<Cycle>, k: nat)
    requires HistoryOk(h) && HonestRun(h, s, floor, cycles) && k <= |cycles|
    ensures HonestRun(h, s, floor, cycles[..k])
  {
    hide RunCycles, HonestCycle;
    forall m | 0 <= m < k ensures HonestCycle(h, RunCycles(s, cycles[..k][..m]).cursor, floor, cycles[..k][m]) {
      assert cycles[..k][..m] == cycles[..m];
    }
  }

  /**
   * A cycle moves the cursor and ends inside a ledger.  Then all the rest of
   * that ledger comes at the cursor without having been fetched, and no later
   * cycle fetches it.
   */
  lemma OpenLedgerIsLost(h: seq<Entry>, s: SyncState, c: Cycle, p: nat, later: seq<Cycle>, k: nat)
    requires HistoryOk(h) && CursorOk(s.cursor) && HonestCycle(h, s.cursor, 0, c)
    requires RunCycle(s, c).cursor != s.cursor && c.answers != []
    requires 0 < End(s.cursor, c.answers) <= p < |h|
    requires LedgerOf(h[p]) == LedgerOf(h[End(s.cursor, c.answers) - 1])
    requires HonestRun(h, RunCycle(s, c), 0, later) && k < |later|
    ensures RunCycle(s, c).cursor == Some(LedgerOf(h[p]))
    ensures !Fetches(h, s.cursor, c, p)
    ensures !Fetches(h, RunCycles(RunCycle(s, c), later[..k]).cursor, later[k], p)
  {
    hide RunCycle, RunCycles, HonestCycle, HonestRun, Clean, ExtractTransactionPayload, LastVisible, Fetch;
    CursorStep(h, s, 0, c);
    BehindTheCursorIsNotFetched(h, RunCycle(s, c), later, k, p);
  }

  /** A trust line of the account: nothing the scanner processes. */
  const TRUST := X.Tx("TrustSet", [], X.Unsupported, None, None, None)

  /** An entry of ledger 5. */
  const ENTRY := Entry(Object(TRUST, NoIndex), Missing, Some("A"), Index.Index(5))

  /**
   * Without whole ledgers a position at the cursor can be missed: of two
   * entries of one ledger a clean cycle sees the first.
   */
  lemma HalfLedgerIsMissed(step: ScanStep)
    ensures
      var h := [ENTRY, ENTRY];
      var c := Cycle(20, [Answer(Page([ENTRY], None), 1)], [step], Finished);
      && HistoryOk(h) && HonestRun(h, FRESH, 0, [c])
      && RunCycles(FRESH, [c]).cursor == Some(LedgerOf(h[1]))
      && !Covered(h, [c], 1)
  {
    var h := [ENTRY, ENTRY];
    var c := Cycle(20, [Answer(Page([ENTRY], None), 1)], [step], Finished);
    hide ExtractTransactionPayload, RunCycle, Clean;
    EntryPayload();
    HalfLedgerIsHonest(step);
    assert [c][..0] == [];
    HalfLedgerCycle(step);
    assert [c][..|[c]| - 1] == [];
    assert !Cleared(h, FRESH.cursor, c, 1);
  }

  /** The one request of the example is honoured. */
  lemma HalfLedgerIsHonest(step: ScanStep)
    ensures HistoryOk([ENTRY, ENTRY])
    ensures HonestCycle([ENTRY, ENTRY], None, 0, Cycle(20, [Answer(Page([ENTRY], None), 1)], [step], Finished))
  {
    hide ExtractTransactionPayload, Start;
    var h, answers := [ENTRY, ENTRY], [Answer(Page([ENTRY], None), 1)];
    EntryPayload();
    NothingBefore(h, 1);
    var asked := Requests(answers, -1, 20, None);
    assert asked == [Request(-1, false, 20, None)];
    assert HonestPage(h, asked[0], 1, answers[0].response);
    assert Honest(h, asked[1..], 1, answers[1..]);
  }

  lemma HalfLedgerCycle(step: ScanStep)
    ensures RunCycle(FRESH, Cycle(20, [Answer(Page([ENTRY], None), 1)], [step], Finished)).cursor == Some(5)
  {
    hide ExtractTransactionPayload, X.Process, Payloads, ExtractMaxLedgerIndex, ScanFirst, PayloadOf;
    EntryPayload();
    OnePage(ENTRY);
    OneScan(PayloadOf(ENTRY), step);
  }

  lemma EntryPayload()
    ensures Carries(ENTRY) && LedgerOf(ENTRY) == 5 && PayloadOf(ENTRY).tx.kind != "Payment"
  {
  }

  lemma OnePage(e: Entry)
    requires Carries(e)
    ensures Payloads([e]) == Some([PayloadOf(e)])
    ensures ExtractMaxLedgerIndex([PayloadOf(e)]) == Some(LedgerOf(e))
  {
    hide ExtractTransactionPayload;
    assert Payloads([e][..0]) == Some([]);
    assert [e][0] == e && [] + [PayloadOf(e)] == [PayloadOf(e)];
    assert PayloadOf(e) in [PayloadOf(e)];
  }

  lemma OneScan(f: Fetched, step: ScanStep)
    requires f.tx.kind != "Payment"
    ensures ScanFirst([f], [step], 1).failed == 0
  {
    hide X.Process;
    NotAPayment(f.tx, step);
  }

  lemma NotAPayment(tx: X.Tx, step: ScanStep)
    requires tx.kind != "Payment"
    ensures VerdictOn(tx, step) == X.Skipped
  {
    hide X.Parse, X.Detect;
  }
}
