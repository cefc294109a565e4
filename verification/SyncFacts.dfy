/** What the ledger worker achieves against a server that answers from an append-only history. */
module SyncFacts {
  import opened Common
  import opened XrplSync
  import X = XrplPayments

  // ------------------------------------------------------------ the server

  predicate Carries(e: Entry) {
    var f := ExtractTransactionPayload(e);
    f.Some? && f.value.ledger.Some? && f.value.ledger.value >= 0
  }

  function PayloadOf(e: Entry): Fetched
    requires Carries(e)
  {
    ExtractTransactionPayload(e).value
  }

  function LedgerOf(e: Entry): nat
    requires Carries(e)
  {
    PayloadOf(e).ledger.value
  }

  /** The account's history: every entry carries its transaction and its ledger, ledgers in order. */
  ghost predicate HistoryOk(h: seq<Entry>) {
    && (forall e <- h :: Carries(e))
    && (forall p, q :: 0 <= p <= q < |h| ==> LedgerOf(h[p]) <= LedgerOf(h[q]))
  }

  /** How many of the visible entries lie in ledgers before `min`. */
  ghost function Start(h: seq<Entry>, visible: nat, min: int): (start: nat)
    requires HistoryOk(h) && visible <= |h|
    ensures start <= visible
    ensures forall p :: 0 <= p < visible ==> (p < start <==> LedgerOf(h[p]) < min)
  {
    if visible == 0 then 0
    else if LedgerOf(h[visible - 1]) < min then visible
    else Start(h, visible - 1, min)
  }

  /** No ledger lies before the bound of a fetch without a cursor. */
  lemma NothingBefore(h: seq<Entry>, visible: nat)
    requires HistoryOk(h) && visible <= |h|
    ensures Start(h, visible, -1) == 0
  {
    assert visible > 0 ==> h[0] in h;
  }

  /**
   * A page of a server that honours the request: from its lower bound upwards,
   * or from the newest entry downwards to its lower bound, going on where the
   * marker says, with a marker exactly when there is more.
   */
  ghost predicate HonestPage(h: seq<Entry>, q: Request, visible: nat, r: Response)
    requires HistoryOk(h) && r.Page? && visible <= |h|
  {
    var n, low := |r.entries|, Start(h, visible, q.ledgerIndexMin);
    if q.forward then
      var from := if q.marker.Some? then q.marker.value else low;
      && from + n <= visible && r.entries == h[from..from + n]
      && r.marker == if from + n < visible then Some(from + n) else None
    else
      var top := if q.marker.Some? then q.marker.value else visible;
      && low + n <= top <= visible && (forall k :: 0 <= k < n ==> r.entries[k] == h[top - 1 - k])
      && r.marker == if low + n < top then Some(top - n) else None
  }

  /** Every page honours the request it answers; what has become visible, from `floor` on, stays visible. */
  ghost predicate Honest(h: seq<Entry>, asked: seq<Request>, floor: nat, answers: seq<Answer>)
    requires HistoryOk(h)
    decreases |answers|
  {
    asked != [] && answers != [] && answers[0].response.Page? ==>
      && floor <= answers[0].visible <= |h|
      && HonestPage(h, asked[0], answers[0].visible, answers[0].response)
      && Honest(h, asked[1..], answers[0].visible, answers[1..])
  }

  /** The server honours the requests that the fetch of the cycle sends. */
  ghost predicate HonestCycle(h: seq<Entry>, cursor: Option<int>, floor: nat, c: Cycle)
    requires HistoryOk(h)
  {
    HonestFetch(h, cursor, floor, c.limit, c.answers)
  }

  ghost predicate HonestFetch(h: seq<Entry>, cursor: Option<int>, floor: nat, limit: nat, answers: seq<Answer>)
    requires HistoryOk(h)
  {
    Honest(h, Requests(answers, LedgerIndexMin(cursor), limit, None), floor, answers)
  }

  /** A ledger ends just before position `v`. */
  ghost predicate Boundary(h: seq<Entry>, v: nat)
    requires HistoryOk(h) && v <= |h|
  {
    0 < v < |h| ==> LedgerOf(h[v - 1]) < LedgerOf(h[v])
  }

  /** The server shows whole ledgers. */
  ghost predicate WholeLedgers(h: seq<Entry>, c: Cycle)
    requires HistoryOk(h)
  {
    forall a <- c.answers :: a.response.Page? ==> a.visible <= |h| && Boundary(h, a.visible)
  }

  // ------------------------------------------------------ what a fetch gets

  ghost function From(h: seq<Entry>, cursor: Option<int>, answers: seq<Answer>): nat
    requires HistoryOk(h) && answers != [] && answers[0].visible <= |h|
  {
    if cursor.None? then 0 else Start(h, answers[0].visible, LedgerIndexMin(cursor))
  }

  /** How far the history was visible at the last page. */
  function LastVisible(answers: seq<Answer>): nat
    requires answers != []
  {
    if answers[0].response.Page? && answers[0].response.marker.Some? && |answers| > 1 then LastVisible(answers[1..])
    else answers[0].visible
  }

  function End(cursor: Option<int>, answers: seq<Answer>): nat
    requires answers != []
  {
    if cursor.None? then answers[0].visible else LastVisible(answers)
  }

  /** Where in the fetched list position `p` of the history is. */
  function Place(cursor: Option<int>, from: nat, end: nat, p: nat): nat
    requires from <= p < end
  {
    if cursor.None? then end - 1 - p else p - from
  }

  /** The transactions `txs` are those of the history from position `from` on. */
  ghost predicate Matches(h: seq<Entry>, from: nat, txs: seq<Fetched>) {
    from + |txs| <= |h| && forall q :: 0 <= q < |txs| ==> ExtractTransactionPayload(h[from + q]) == Some(txs[q])
  }

  lemma JoinedMatches(h: seq<Entry>, from: nat, page: seq<Fetched>, rest: seq<Fetched>)
    requires Matches(h, from, page) && Matches(h, from + |page|, rest)
    ensures Matches(h, from, page + rest)
  {
    hide ExtractTransactionPayload;
    forall q | 0 <= q < |page| + |rest| ensures ExtractTransactionPayload(h[from + q]) == Some((page + rest)[q]) {
      if q >= |page| { assert from + q == (from + |page|) + (q - |page|); }
    }
  }

  lemma PageMatches(h: seq<Entry>, from: nat, entries: seq<Entry>)
    requires from + |entries| <= |h| && entries == h[from..from + |entries|] && Payloads(entries).Some?
    ensures Matches(h, from, Payloads(entries).value)
  {
    hide ExtractTransactionPayload;
    var page := Payloads(entries).value;
    forall q | 0 <= q < |page| ensures ExtractTransactionPayload(h[from + q]) == Some(page[q]) {
      assert entries[q] == h[from + q];
    }
  }

  lemma {:induction false} UpwardFetch(h: seq<Entry>, min: int, limit: nat, marker: Option<nat>, floor: nat,
                                       answers: seq<Answer>)
    requires HistoryOk(h) && min >= 0 && Fetch(answers).Some?
    requires Honest(h, Requests(answers, min, limit, marker), floor, answers)
    ensures answers != [] && answers[0].visible <= |h| && floor <= LastVisible(answers) <= |h|
    ensures exists a <- answers :: a.response.Page? && a.visible == LastVisible(answers)
    ensures
      var from := if marker.Some? then marker.value else Start(h, answers[0].visible, min);
      && from + |Fetch(answers).value| == LastVisible(answers)
      && (from == answers[0].visible ==> LastVisible(answers) == from)
      && Matches(h, from, Fetch(answers).value)
    decreases |answers|
  {
    hide HistoryOk, ExtractTransactionPayload, Payloads, Matches, Start;
    var r := answers[0].response;
    var from := if marker.Some? then marker.value else Start(h, answers[0].visible, min);
    PageMatches(h, from, r.entries);
    assert answers[0] in answers;
    if r.marker.Some? {
      assert Requests(answers, min, limit, marker)[1..] == Requests(answers[1..], min, limit, r.marker);
      UpwardFetch(h, min, limit, r.marker, answers[0].visible, answers[1..]);
      JoinedMatches(h, from, Payloads(r.entries).value, Fetch(answers[1..]).value);
    }
  }

  /** The transactions `txs` are those of the history from just below position `top` downwards. */
  ghost predicate MatchesDown(h: seq<Entry>, top: nat, txs: seq<Fetched>) {
    && |txs| <= top <= |h|
    && forall q :: 0 <= q < |txs| ==> ExtractTransactionPayload(h[top - 1 - q]) == Some(txs[q])
  }

  lemma PageMatchesDown(h: seq<Entry>, top: nat, entries: seq<Entry>)
    requires |entries| <= top <= |h| && Payloads(entries).Some?
    requires forall k :: 0 <= k < |entries| ==> entries[k] == h[top - 1 - k]
    ensures MatchesDown(h, top, Payloads(entries).value)
  {
    hide ExtractTransactionPayload;
    var page := Payloads(entries).value;
    forall q | 0 <= q < |page| ensures ExtractTransactionPayload(h[top - 1 - q]) == Some(page[q]) {
      assert entries[q] == h[top - 1 - q];
    }
  }

  lemma JoinedMatchesDown(h: seq<Entry>, top: nat, page: seq<Fetched>, rest: seq<Fetched>)
    requires MatchesDown(h, top, page) && MatchesDown(h, top - |page|, rest)
    ensures MatchesDown(h, top, page + rest)
  {
    hide ExtractTransactionPayload;
    forall q | 0 <= q < |page| + |rest|
      ensures ExtractTransactionPayload(h[top - 1 - q]) == Some((page + rest)[q])
    {
      if q >= |page| { assert top - 1 - q == (top - |page|) - 1 - (q - |page|); }
    }
  }

  lemma {:induction false} DownwardFetch(h: seq<Entry>, min: int, limit: nat, marker: Option<nat>, floor: nat,
                                         answers: seq<Answer>)
    requires HistoryOk(h) && min == -1 && Fetch(answers).Some?
    requires Honest(h, Requests(answers, min, limit, marker), floor, answers)
    ensures answers != [] && floor <= answers[0].visible <= |h| && answers[0].response.Page?
    ensures
      var top := if marker.Some? then marker.value else answers[0].visible;
      |Fetch(answers).value| == top <= answers[0].visible && MatchesDown(h, top, Fetch(answers).value)
    decreases |answers|
  {
    hide HistoryOk, ExtractTransactionPayload, Payloads, Start, MatchesDown;
    NothingBefore(h, answers[0].visible);
    var r := answers[0].response;
    var top := if marker.Some? then marker.value else answers[0].visible;
    PageMatchesDown(h, top, r.entries);
    if r.marker.Some? {
      assert Requests(answers, min, limit, marker)[1..] == Requests(answers[1..], min, limit, r.marker);
      DownwardFetch(h, min, limit, r.marker, answers[0].visible, answers[1..]);
      JoinedMatchesDown(h, top, Payloads(r.entries).value, Fetch(answers[1..]).value);
    }
  }

  predicate CursorOk(cursor: Option<int>) {
    cursor.Some? ==> cursor.value >= 0
  }

  /** The list holds the entries from `from` to `end`, each once: in order after a cursor, newest first without one. */
  ghost predicate Holds(h: seq<Entry>, cursor: Option<int>, from: nat, end: nat, txs: seq<Fetched>) {
    && from <= end <= |h| && |txs| == end - from
    && forall p :: from <= p < end ==>
         && Place(cursor, from, end, p) < |txs|
         && ExtractTransactionPayload(h[p]) == Some(txs[Place(cursor, from, end, p)])
  }

  /** The first `from` entries of the first `end` are those at or below the cursor. */
  ghost predicate Splits(h: seq<Entry>, cursor: Option<int>, from: nat, end: nat)
    requires HistoryOk(h) && end <= |h|
  {
    forall p :: 0 <= p < end ==> (p < from <==> cursor.Some? && LedgerOf(h[p]) <= cursor.value)
  }

  /** A fetch that ends well returns exactly the visible entries above the cursor. */
  lemma FetchIsExact(h: seq<Entry>, cursor: Option<int>, floor: nat, limit: nat, answers: seq<Answer>)
    requires HistoryOk(h) && CursorOk(cursor)
    requires HonestFetch(h, cursor, floor, limit, answers) && Fetch(answers).Some?
    ensures answers != [] && answers[0].visible <= |h|
    ensures exists a <- answers :: a.response.Page? && a.visible == End(cursor, answers)
    ensures
      var (from, end) := (From(h, cursor, answers), End(cursor, answers));
      && floor <= end && end <= |h| && Splits(h, cursor, from, end)
      && Holds(h, cursor, from, end, Fetch(answers).value)
  {
    hide ExtractTransactionPayload, Fetch, Honest, Requests, LastVisible, Holds, Splits, HistoryOk, Matches,
         MatchesDown;
    var min := LedgerIndexMin(cursor);
    if cursor.Some? {
      UpwardFetch(h, min, limit, None, floor, answers);
      var from, end := Start(h, answers[0].visible, min), LastVisible(answers);
      UpwardHolds(h, cursor, from, end, Fetch(answers).value);
      UpwardSplits(h, cursor, answers[0].visible, end);
    } else {
      DownwardFetch(h, min, limit, None, floor, answers);
      DownwardHolds(h, answers[0].visible, Fetch(answers).value);
      NothingBelow(h, answers[0].visible);
      assert answers[0] in answers;
    }
  }

  lemma UpwardHolds(h: seq<Entry>, cursor: Option<int>, from: nat, end: nat, txs: seq<Fetched>)
    requires cursor.Some? && Matches(h, from, txs) && from + |txs| == end
    ensures Holds(h, cursor, from, end, txs)
  {
    hide ExtractTransactionPayload;
    forall p | from <= p < end ensures ExtractTransactionPayload(h[p]) == Some(txs[p - from]) {
      assert h[p] == h[from + (p - from)];
    }
  }

  lemma UpwardSplits(h: seq<Entry>, cursor: Option<int>, visible: nat, end: nat)
    requires HistoryOk(h) && cursor.Some? && visible <= |h| && end <= |h|
    requires Start(h, visible, cursor.value + 1) == visible ==> end <= visible
    ensures Splits(h, cursor, Start(h, visible, cursor.value + 1), end)
  {
    hide ExtractTransactionPayload;
    var from := Start(h, visible, cursor.value + 1);
    forall p | 0 <= p < end ensures p < from <==> LedgerOf(h[p]) <= cursor.value {
      if p >= visible { assert LedgerOf(h[from]) <= LedgerOf(h[p]); }
    }
  }

  lemma DownwardHolds(h: seq<Entry>, top: nat, txs: seq<Fetched>)
    requires |txs| == top && MatchesDown(h, top, txs)
    ensures Holds(h, None, 0, top, txs)
  {
    hide ExtractTransactionPayload;
    forall p | 0 <= p < top ensures ExtractTransactionPayload(h[p]) == Some(txs[top - 1 - p]) {
      assert h[p] == h[top - 1 - (top - 1 - p)];
    }
  }

  lemma NothingBelow(h: seq<Entry>, end: nat)
    requires HistoryOk(h) && end <= |h|
    ensures Splits(h, None, 0, end)
  {
  }

  // ------------------------------------------------------------ the cursor

  /** The worker's state after a run of cycles. */
  function RunCycles(s: SyncState, cycles: seq<Cycle>): SyncState
    decreases |cycles|
  {
    if cycles == [] then s
    else RunCycle(RunCycles(s, cycles[..|cycles| - 1]), cycles[|cycles| - 1])
  }

  ghost predicate HonestRun(h: seq<Entry>, s: SyncState, floor: nat, cycles: seq<Cycle>)
    requires HistoryOk(h)
  {
    forall k :: 0 <= k < |cycles| ==> HonestCycle(h, RunCycles(s, cycles[..k]).cursor, floor, cycles[k])
  }

  /** The run without its last cycle. */
  lemma Shorter(h: seq<Entry>, s: SyncState, floor: nat, cycles: seq<Cycle>)
    requires HistoryOk(h) && cycles != [] && HonestRun(h, s, floor, cycles)
    ensures
      var init := cycles[..|cycles| - 1];
      && HonestRun(h, s, floor, init)
      && HonestCycle(h, RunCycles(s, init).cursor, floor, cycles[|cycles| - 1])
  {
    var init := cycles[..|cycles| - 1];
    forall k | 0 <= k < |init| ensures HonestCycle(h, RunCycles(s, init[..k]).cursor, floor, init[k]) {
      assert init[..k] == cycles[..k] && init[k] == cycles[k];
      assert HonestCycle(h, RunCycles(s, cycles[..k]).cursor, floor, cycles[k]);
    }
  }

  /** The whole batch of a cycle was scanned and nothing in it failed. */
  ghost predicate Clean(c: Cycle) {
    && Fetch(c.answers).Some? && |Fetch(c.answers).value| <= |c.steps|
    && forall j :: 0 <= j < |Fetch(c.answers).value| ==>
         VerdictOn(Fetch(c.answers).value[j].tx, c.steps[j]) != X.Verdict.Failed
  }

  /** The fetch of cycle `c`, started at `cursor`, ended well and holds position `p`. */
  ghost predicate Fetches(h: seq<Entry>, cursor: Option<int>, c: Cycle, p: nat)
    requires HistoryOk(h)
  {
    && Fetch(c.answers).Some? && c.answers[0].visible <= |h|
    && From(h, cursor, c.answers) <= p < End(cursor, c.answers)
  }

  /** Cycle `c`, started at `cursor`, fetched position `p` and booked its whole batch without a failure. */
  ghost predicate Cleared(h: seq<Entry>, cursor: Option<int>, c: Cycle, p: nat)
    requires HistoryOk(h)
  {
    && Clean(c) && Fetches(h, cursor, c, p)
    && var from, end, txs := From(h, cursor, c.answers), End(cursor, c.answers), Fetch(c.answers).value;
    && end <= |h| && Place(cursor, from, end, p) < |txs|
    && ExtractTransactionPayload(h[p]) == Some(txs[Place(cursor, from, end, p)])
  }

  /**
   * A cycle leaves the cursor, or it had a clean batch and the cursor is now
   * the ledger of the last entry it saw, above where the cursor was.
   */
  lemma CursorStep(h: seq<Entry>, s: SyncState, floor: nat, c: Cycle)
    requires HistoryOk(h) && CursorOk(s.cursor) && HonestCycle(h, s.cursor, floor, c)
    ensures
      var cursor := RunCycle(s, c).cursor;
      && CursorOk(cursor)
      && (cursor == s.cursor
          || (&& Clean(c) && c.answers[0].visible <= |h|
              && From(h, s.cursor, c.answers) < End(s.cursor, c.answers) <= |h|
              && cursor == Some(LedgerOf(h[End(s.cursor, c.answers) - 1]))
              && (s.cursor.Some? ==> s.cursor.value < cursor.value)))
  {
    hide Fetch, HonestFetch, ExtractMaxLedgerIndex, ScanFirst, Start, VerdictOn;
    if RunCycle(s, c).cursor != s.cursor {
      var txs := Fetch(c.answers).value;
      EverythingIsBooked(txs, c.steps, |txs|);
      FetchIsExact(h, s.cursor, floor, c.limit, c.answers);
      NewestLedger(h, s.cursor, From(h, s.cursor, c.answers), End(s.cursor, c.answers), txs);
    }
  }

  /** The largest ledger index of a batch is that of the newest entry. */
  lemma NewestLedger(h: seq<Entry>, cursor: Option<int>, from: nat, end: nat, txs: seq<Fetched>)
    requires HistoryOk(h) && Holds(h, cursor, from, end, txs) && Splits(h, cursor, from, end)
    ensures from < end ==> ExtractMaxLedgerIndex(txs) == Some(LedgerOf(h[end - 1]))
    ensures from == end ==> ExtractMaxLedgerIndex(txs) == None
    ensures from < end && cursor.Some? ==> cursor.value < LedgerOf(h[end - 1])
  {
    hide ExtractTransactionPayload;
    if from < end {
      var newest := Place(cursor, from, end, end - 1);
      assert h[end - 1] in h;
      assert txs[newest] in txs && txs[newest].ledger == Some(LedgerOf(h[end - 1]));
      forall t <- txs ensures t.ledger.Some? && t.ledger.value <= LedgerOf(h[end - 1]) {
        var j :| 0 <= j < |txs| && txs[j] == t;
        var p := if cursor.None? then end - 1 - j else from + j;
        assert Place(cursor, from, end, p) == j && h[p] in h;
        assert LedgerOf(h[p]) <= LedgerOf(h[end - 1]);
      }
    }
  }

  /** Some cycle of the run cleared position `p`. */
  ghost predicate Covered(h: seq<Entry>, cycles: seq<Cycle>, p: nat)
    requires HistoryOk(h)
  {
    exists k :: 0 <= k < |cycles| && Cleared(h, RunCycles(FRESH, cycles[..k]).cursor, cycles[k], p)
  }

  /** If the cycle moves the cursor, what it has seen ends with a whole ledger. */
  ghost predicate ClosesLedger(h: seq<Entry>, s: SyncState, c: Cycle)
    requires HistoryOk(h)
  {
    RunCycle(s, c).cursor != s.cursor ==>
      c.answers != [] && End(s.cursor, c.answers) <= |h| && Boundary(h, End(s.cursor, c.answers))
  }

  /** Position `p` comes at or below the cursor in this very cycle. */
  ghost predicate Passes(h: seq<Entry>, s: SyncState, c: Cycle, p: nat)
    requires HistoryOk(h) && p < |h|
  {
    && RunCycle(s, c).cursor.Some? && LedgerOf(h[p]) <= RunCycle(s, c).cursor.value
    && !(s.cursor.Some? && LedgerOf(h[p]) <= s.cursor.value)
  }

  /** A cycle has cleared all that its cursor passes exactly when it closes the ledger it ends in. */
  lemma AdvanceIsExact(h: seq<Entry>, s: SyncState, floor: nat, c: Cycle)
    requires HistoryOk(h) && CursorOk(s.cursor) && HonestCycle(h, s.cursor, floor, c)
    ensures (forall p :: 0 <= p < |h| && Passes(h, s, c, p) ==> Cleared(h, s.cursor, c, p)) <==> ClosesLedger(h, s, c)
  {
    hide RunCycle, HonestFetch, Fetch, ExtractTransactionPayload, VerdictOn, LastVisible;
    CursorStep(h, s, floor, c);
    if RunCycle(s, c).cursor != s.cursor {
      FetchIsExact(h, s.cursor, floor, c.limit, c.answers);
      var end := End(s.cursor, c.answers);
      if Boundary(h, end) {
        assert forall p :: end <= p < |h| ==> LedgerOf(h[end]) <= LedgerOf(h[p]);
      } else {
        assert LedgerOf(h[end - 1]) <= LedgerOf(h[end]);
        assert Passes(h, s, c, end) && !Cleared(h, s.cursor, c, end);
      }
    }
  }

  /** A server that shows whole ledgers only lets every cycle close its ledger. */
  lemma WholeLedgersClose(h: seq<Entry>, s: SyncState, floor: nat, c: Cycle)
    requires HistoryOk(h) && CursorOk(s.cursor) && HonestCycle(h, s.cursor, floor, c) && WholeLedgers(h, c)
    ensures ClosesLedger(h, s, c)
  {
    hide RunCycle, HonestFetch, Fetch, ExtractTransactionPayload, VerdictOn, LastVisible, Boundary, Holds, Splits;
    CursorStep(h, s, floor, c);
    if RunCycle(s, c).cursor != s.cursor { FetchIsExact(h, s.cursor, floor, c.limit, c.answers); }
  }

  /** Every cycle of the run that moves the cursor closes the ledger it ends in. */
  ghost predicate ClosedRun(h: seq<Entry>, cycles: seq<Cycle>)
    requires HistoryOk(h)
  {
    forall k :: 0 <= k < |cycles| ==> ClosesLedger(h, RunCycles(FRESH, cycles[..k]), cycles[k])
  }

  /**
   * When the cycles that move the cursor close their ledgers, nothing is
   * missed: whatever lies at or below the cursor was fetched, and booked as
   * confirmed or skipped, in one cycle without a single failure.
   */
  lemma {:induction false} NothingIsMissed(h: seq<Entry>, cycles: seq<Cycle>, p: nat)
    requires HistoryOk(h) && HonestRun(h, FRESH, 0, cycles) && ClosedRun(h, cycles)
    requires p < |h|
    ensures
      var cursor := RunCycles(FRESH, cycles).cursor;
      CursorOk(cursor) && (cursor.Some? && LedgerOf(h[p]) <= cursor.value ==> Covered(h, cycles, p))
    decreases |cycles|
  {
    hide RunCycle, Cleared, Boundary, ClosesLedger, Clean, LedgerOf, HonestCycle;
    if cycles != [] {
      var init, c := cycles[..|cycles| - 1], cycles[|cycles| - 1];
      Shorter(h, FRESH, 0, cycles);
      ShorterClosed(h, cycles);
      NothingIsMissed(h, init, p);
      var s := RunCycles(FRESH, init);
      StillCovered(h, init, c, p);
      assert init + [c] == cycles;
      CursorStep(h, s, 0, c);
      AdvanceIsExact(h, s, 0, c);
      assert cycles[..|cycles| - 1] == init;
      assert Cleared(h, s.cursor, c, p) ==> Covered(h, cycles, p);
    }
  }

  lemma ShorterClosed(h: seq<Entry>, cycles: seq<Cycle>)
    requires HistoryOk(h) && cycles != [] && ClosedRun(h, cycles)
    ensures
      var init := cycles[..|cycles| - 1];
      ClosedRun(h, init) && ClosesLedger(h, RunCycles(FRESH, init), cycles[|cycles| - 1])
  {
    hide RunCycles, ClosesLedger;
    var init := cycles[..|cycles| - 1];
    forall k | 0 <= k < |init| ensures ClosesLedger(h, RunCycles(FRESH, init[..k]), init[k]) {
      assert init[..k] == cycles[..k] && init[k] == cycles[k];
    }
  }

  lemma StillCovered(h: seq<Entry>, cycles: seq<Cycle>, c: Cycle, p: nat)
    requires HistoryOk(h)
    ensures Covered(h, cycles, p) ==> Covered(h, cycles + [c], p)
  {
    hide RunCycles, Cleared;
    if Covered(h, cycles, p) {
      var k :| 0 <= k < |cycles| && Cleared(h, RunCycles(FRESH, cycles[..k]).cursor, cycles[k], p);
      assert (cycles + [c])[..k] == cycles[..k];
    }
  }
}
