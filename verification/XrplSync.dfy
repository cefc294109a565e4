/** The ledger worker: marker paging, the scan of a batch, and the cursor that moves only after a clean batch. */
module XrplSync {
  import opened Common
  import opened Store
  import opened Database
  import X = XrplPayments

  // -------------------------------------------------------------- fetching

  /** A ledger_index field: absent, a number, or something int() rejects. */
  datatype Index = NoIndex | Index(value: int) | BadIndex

  /** The tx or tx_json field of an entry. */
  datatype Field = Missing | NotAnObject | Object(tx: X.Tx, ledgerIndex: Index)

  datatype Entry = Entry(tx: Field, txJson: Field, hash: Option<string>, ledgerIndex: Index)

  datatype Fetched = Fetched(tx: X.Tx, ledger: Option<int>)

  datatype Request = Request(ledgerIndexMin: int, forward: bool, limit: nat, marker: Option<nat>)

  datatype Response = Refused | NotAList | Page(entries: seq<Entry>, marker: Option<nat>)

  /** An answer of the server, and how much of its history was validated when it gave it. */
  datatype Answer = Answer(response: Response, visible: nat)

  /** None is the exception that ends the fetch. */
  function ExtractTransactionPayload(e: Entry): Option<Fetched> {
    var field := if e.tx == Missing then e.txJson else e.tx;
    if !field.Object? then None else
      var tx := if e.hash.Some? && field.tx.hash.None? then field.tx.(hash := e.hash) else field.tx;
      match (if e.ledgerIndex == NoIndex then field.ledgerIndex else e.ledgerIndex)
      case NoIndex => Some(Fetched(tx, None))
      case Index(v) => Some(Fetched(tx, Some(v)))
      case BadIndex => None
  }

  /** The payload of an entry is its tx, or its tx_json when it has no tx. */
  function BodyOf(e: Entry): Field {
    if e.tx == Missing then e.txJson else e.tx
  }

  /**
   * Field by field: an entry is refused exactly when its payload is no object
   * or the ledger index that counts is no number; the hash and the index
   * around the payload are used where the payload has no hash and before the
   * payload's own index.
   */
  lemma PayloadByFields(e: Entry)
    ensures ExtractTransactionPayload(e).None?
       <==> || e.tx == NotAnObject || (e.tx == Missing && (e.txJson == Missing || e.txJson == NotAnObject))
            || e.ledgerIndex == BadIndex || (e.ledgerIndex == NoIndex && BodyOf(e).ledgerIndex == BadIndex)
    ensures ExtractTransactionPayload(e).Some? ==>
              var f, body := ExtractTransactionPayload(e).value, BodyOf(e);
              && body.Object?
              && f.tx.kind == body.tx.kind && f.tx.memos == body.tx.memos && f.tx.amount == body.tx.amount
              && f.tx.destination == body.tx.destination && f.tx.altHash == body.tx.altHash
              && (body.tx.hash.Some? ==> f.tx.hash == body.tx.hash)
              && (body.tx.hash.None? ==> f.tx.hash == e.hash)
              && (e.ledgerIndex.Index? ==> f.ledger == Some(e.ledgerIndex.value))
              && (e.ledgerIndex.NoIndex? && body.ledgerIndex.Index? ==> f.ledger == Some(body.ledgerIndex.value))
              && (e.ledgerIndex.NoIndex? && body.ledgerIndex.NoIndex? ==> f.ledger == None)
  {
  }

  function Payloads(entries: seq<Entry>): (r: Option<seq<Fetched>>)
    ensures r.Some? <==> forall e <- entries :: ExtractTransactionPayload(e).Some?
    ensures r.Some? ==> |r.value| == |entries|
    ensures r.Some? ==> forall q :: 0 <= q < |entries| ==> ExtractTransactionPayload(entries[q]) == Some(r.value[q])
  {
    if entries == [] then Some([]) else
      var n := |entries| - 1;
      assert entries == entries[..n] + [entries[n]];
      match (Payloads(entries[..n]), ExtractTransactionPayload(entries[n]))
      case (Some(txs), Some(tx)) => Some(txs + [tx])
      case _ => None
  }

  function Prepend<T>(a: seq<T>, b: Option<seq<T>>): Option<seq<T>> {
    if b.None? then None else Some(a + b.value)
  }

  lemma PrependPage<T>(a: seq<T>, b: seq<T>, c: Option<seq<T>>)
    ensures Prepend([], c) == c
    ensures Prepend(a, Prepend(b, c)) == Prepend(a + b, c)
  {
    if c.Some? {
      assert [] + c.value == c.value;
      assert a + (b + c.value) == (a + b) + c.value;
    }
  }

  /** What the answers in turn make of a fetch; a server that stops answering fails it. */
  function Fetch(answers: seq<Answer>): Option<seq<Fetched>> {
    if answers == [] || !answers[0].response.Page? then None else
      match Payloads(answers[0].response.entries)
      case None => None
      case Some(txs) =>
        if answers[0].response.marker == None then Some(txs) else Prepend(txs, Fetch(answers[1..]))
  }

  /** The requests a fetch sends: each carries the marker of the page before it. */
  function Requests(answers: seq<Answer>, min: int, limit: nat, marker: Option<nat>): seq<Request> {
    [Request(min, min >= 0, limit, marker)]
    + if answers != [] && answers[0].response.Page? && answers[0].response.marker.Some?
      && Payloads(answers[0].response.entries).Some?
      then Requests(answers[1..], min, limit, answers[0].response.marker)
      else []
  }

  /** The fetch goes on after page `k`: it was one, all of its entries could be read, and it left a marker. */
  predicate GoesOn(answers: seq<Answer>, k: nat) {
    && k < |answers| && answers[k].response.Page? && answers[k].response.marker.Some?
    && forall e <- answers[k].response.entries :: ExtractTransactionPayload(e).Some?
  }

  /**
   * One request more than there are pages to go on from, all with the same
   * bound, direction and limit, and each after the first with the marker of
   * the page before it.
   */
  lemma {:induction false} RequestsFollowMarkers(answers: seq<Answer>, min: int, limit: nat, marker: Option<nat>)
    ensures
      var asked := Requests(answers, min, limit, marker);
      && |asked| >= 1 && asked[0].marker == marker
      && (forall k :: 0 <= k < |asked| ==>
            asked[k].ledgerIndexMin == min && asked[k].forward == (min >= 0) && asked[k].limit == limit)
      && (forall k :: 0 <= k < |asked| - 1 ==>
            GoesOn(answers, k) && asked[k + 1].marker == answers[k].response.marker)
      && !GoesOn(answers, |asked| - 1)
    decreases |answers|
  {
    hide ExtractTransactionPayload;
    var asked := Requests(answers, min, limit, marker);
    if GoesOn(answers, 0) {
      var rest := Requests(answers[1..], min, limit, answers[0].response.marker);
      assert asked == [Request(min, min >= 0, limit, marker)] + rest;
      RequestsFollowMarkers(answers[1..], min, limit, answers[0].response.marker);
      forall k | 0 <= k < |answers| - 1 ensures GoesOn(answers[1..], k) == GoesOn(answers, k + 1) {
        assert answers[1..][k] == answers[k + 1];
      }
      forall k | 0 <= k < |asked| - 1
        ensures GoesOn(answers, k) && asked[k + 1].marker == answers[k].response.marker
      {
        if k > 0 { assert GoesOn(answers[1..], k - 1) && asked[k + 1] == rest[k] && answers[1..][k - 1] == answers[k]; }
      }
      assert !GoesOn(answers[1..], |rest| - 1);
    }
  }

  class LedgerClient {
    var answers: seq<Answer>
    var asked: seq<Request>

    constructor (script: seq<Answer>)
      ensures answers == script && asked == []
    {
      answers, asked := script, [];
    }

    method Ask(r: Request) returns (response: Response)
      modifies this
      ensures asked == old(asked) + [r]
      ensures if old(answers) == [] then response == Refused && answers == []
              else response == old(answers)[0].response && answers == old(answers)[1..]
    {
      asked := asked + [r];
      if answers == [] {
        return Refused;
      }
      response := answers[0].response;
      answers := answers[1..];
    }
  }

  method FetchAccountTransactions(client: LedgerClient, min: int, limit: nat) returns (fetched: Option<seq<Fetched>>)
    modifies client
    ensures fetched == Fetch(old(client.answers))
    ensures client.asked == old(client.asked) + Requests(old(client.answers), min, limit, None)
  {
    var txs: seq<Fetched> := [];
    var marker: Option<nat> := None;
    PrependPage(txs, txs, Fetch(client.answers));
    while true
      invariant Fetch(old(client.answers)) == Prepend(txs, Fetch(client.answers))
      invariant old(client.asked) + Requests(old(client.answers), min, limit, None)
             == client.asked + Requests(client.answers, min, limit, marker)
      decreases |client.answers|
    {
      ghost var rest, sent, asking := client.answers, client.asked, marker;
      var response := client.Ask(Request(min, min >= 0, limit, marker));
      assert client.asked + (Requests(rest, min, limit, asking)[1..]) == sent + Requests(rest, min, limit, asking);
      if !response.Page? {
        return None;
      }
      var page := Payloads(response.entries);
      if page == None {
        return None;
      }
      PrependPage(txs, page.value, Fetch(client.answers));
      txs := txs + page.value;
      marker := response.marker;
      if marker == None {
        break;
      }
    }
    return Some(txs);
  }

  function ExtractMaxLedgerIndex(txs: seq<Fetched>): (max: Option<int>)
    ensures max.None? <==> forall t <- txs :: t.ledger.None?
    ensures max.Some? ==> (exists t <- txs :: t.ledger == max) && forall t <- txs :: t.ledger.Some? ==>
      t.ledger.value <= max.value
  {
    if txs == [] then None else
      var n := |txs| - 1;
      assert txs == txs[..n] + [txs[n]];
      match (ExtractMaxLedgerIndex(txs[..n]), txs[n].ledger)
      case (None, l) => assert txs[n] in txs; l
      case (m, None) => m
      case (Some(a), Some(b)) => assert txs[n] in txs; Some(if a < b then b else a)
  }

  // -------------------------------------------------------------- scanning

  /** The rows the scanner sees at one transaction, its clocks and the delivery ids drawn. */
  datatype ScanStep = ScanStep(seen: Store, now: int, dbNow: int, ids: seq<DeliveryId>)

  datatype ScanResult = ScanResult(processed: nat, skipped: nat, failed: nat, confirmed: seq<IntentId>)

  const NOTHING := ScanResult(0, 0, 0, [])

  function Scanned(tx: X.Tx, step: ScanStep): Store {
    X.Process(step.seen, tx, step.now, step.dbNow, step.ids).0
  }

  function VerdictOn(tx: X.Tx, step: ScanStep): X.Verdict {
    X.Process(step.seen, tx, step.now, step.dbNow, step.ids).1
  }

  function Book(r: ScanResult, v: X.Verdict): ScanResult {
    match v
    case Processed(i) => r.(processed := r.processed + 1, confirmed := r.confirmed + [i])
    case Skipped => r.(skipped := r.skipped + 1)
    case Failed => r.(failed := r.failed + 1)
  }

  /** The books after the first `n` transactions. */
  function ScanFirst(txs: seq<Fetched>, steps: seq<ScanStep>, n: nat): ScanResult
    requires n <= |txs| && n <= |steps|
  {
    if n == 0 then NOTHING
    else Book(ScanFirst(txs, steps, n - 1), VerdictOn(txs[n - 1].tx, steps[n - 1]))
  }

  lemma {:induction false} EverythingIsBooked(txs: seq<Fetched>, steps: seq<ScanStep>, n: nat)
    requires n <= |txs| && n <= |steps|
    ensures
      var r := ScanFirst(txs, steps, n);
      && r.processed + r.skipped + r.failed == n && |r.confirmed| == r.processed
      && (r.failed == 0 <==> forall j :: 0 <= j < n ==> VerdictOn(txs[j].tx, steps[j]) != X.Verdict.Failed)
      && (forall i :: i in r.confirmed <==> exists j :: 0 <= j < n && VerdictOn(txs[j].tx, steps[j]) == X.Processed(i))
  {
    hide VerdictOn;
    if n > 0 {
      EverythingIsBooked(txs, steps, n - 1);
    }
  }

  /** How many of the transactions a scan got to: all, unless the process died on the way. */
  function Reach(txs: seq<Fetched>, steps: seq<ScanStep>): nat {
    if |txs| <= |steps| then |txs| else |steps|
  }

  /** The rows the session has committed or seen after `n` transactions. */
  function RowsAfter(s: Store, txs: seq<Fetched>, steps: seq<ScanStep>, n: nat): Store
    requires n <= |txs| && n <= |steps|
  {
    if n == 0 then s else Scanned(txs[n - 1].tx, steps[n - 1])
  }

  method ScanXrplTransactions(db: Session, txs: seq<Fetched>, steps: seq<ScanStep>) returns (r: ScanResult)
    requires db.Clean()
    modifies db
    ensures db.Clean()
    ensures r == ScanFirst(txs, steps, Reach(txs, steps))
    ensures db.committed == RowsAfter(old(db.committed), txs, steps, Reach(txs, steps))
    ensures
      var n := Min(|txs|, |steps|);
      && r.processed + r.skipped + r.failed == n
      && (n == 0 ==> db.committed == old(db.committed))
      && (n > 0 ==> db.committed == Scanned(txs[n - 1].tx, steps[n - 1]))
  {
    hide X.Process;
    EverythingIsBooked(txs, steps, Reach(txs, steps));
    r := NOTHING;
    var n := 0;
    while n < Reach(txs, steps)
      invariant n <= Reach(txs, steps) && db.Clean()
      invariant r == ScanFirst(txs, steps, n)
      invariant db.committed == RowsAfter(old(db.committed), txs, steps, n)
    {
      db.Observe(steps[n].seen);
      var verdict := X.ProcessCandidateTransaction(db, txs[n].tx, steps[n].now, steps[n].dbNow, steps[n].ids);
      match verdict {
        case Skipped =>
          r := r.(skipped := r.skipped + 1);
        case Failed =>
          r := r.(failed := r.failed + 1);
        case Processed(i) =>
          r := r.(processed := r.processed + 1, confirmed := r.confirmed + [i]);
      }
      n := n + 1;
    }
  }

  // ---------------------------------------------------------------- cycles

  datatype SyncState = SyncState(cursor: Option<int>, succeeded: nat, failedCycles: nat, fetched: nat, processed: nat,
                                 skipped: nat, failed: nat)

  const FRESH := SyncState(None, 0, 0, 0, 0, 0, 0)

  /**
   * Where a cycle ends: at its end, in an exception after the scan, or with
   * the process; the last two may come before or after the cursor is stored.
   */
  datatype SyncEnding = Finished | RaisedLate(stored: bool) | Killed(stored: bool)

  /** Everything a cycle meets; fewer steps than transactions mean that it died in the scan. */
  datatype Cycle = Cycle(limit: nat, answers: seq<Answer>, steps: seq<ScanStep>, ending: SyncEnding)

  function LedgerIndexMin(cursor: Option<int>): int {
    if cursor.None? then -1 else cursor.value + 1
  }

  function CountSuccess(s: SyncState, fetched: nat, r: ScanResult): SyncState {
    s.(succeeded := s.succeeded + 1, fetched := s.fetched + fetched, processed := s.processed + r.processed,
       skipped := s.skipped + r.skipped, failed := s.failed + r.failed)
  }

  function CountFailure(s: SyncState, fetched: nat, r: ScanResult): SyncState {
    s.(failedCycles := s.failedCycles + 1, fetched := s.fetched + fetched, processed := s.processed + r.processed,
       skipped := s.skipped + r.skipped, failed := s.failed + r.failed)
  }

  function Advance(s: SyncState, max: Option<int>, r: ScanResult): SyncState {
    if max.Some? && r.failed == 0 then s.(cursor := max) else s
  }

  function RunCycle(s: SyncState, c: Cycle): SyncState {
    match Fetch(c.answers)
    case None => if c.ending.Killed? then s else CountFailure(s, 0, NOTHING)
    case Some(txs) =>
      if |c.steps| < |txs| then s else
        var r := ScanFirst(txs, c.steps, |txs|);
        var t := Advance(s, ExtractMaxLedgerIndex(txs), r);
        match c.ending
        case Finished => if r.failed == 0 then CountSuccess(t, |txs|, r) else CountFailure(t, |txs|, r)
        case RaisedLate(stored) => CountFailure(if stored then t else s, |txs|, NOTHING)
        case Killed(stored) => if stored then t else s
  }

  class SyncWorker {
    var lastLedgerIndex: Option<int>
    var succeeded: nat
    var failedCycles: nat
    var fetched: nat
    var processed: nat
    var skipped: nat
    var failed: nat

    constructor ()
      ensures State() == FRESH
    {
      lastLedgerIndex := None;
      succeeded, failedCycles, fetched, processed, skipped, failed := 0, 0, 0, 0, 0, 0;
    }

    function State(): SyncState
      reads this
    {
      SyncState(lastLedgerIndex, succeeded, failedCycles, fetched, processed, skipped, failed)
    }

    method UpdateLedgerCursor(index: int)
      modifies this`lastLedgerIndex
      ensures lastLedgerIndex == Some(index)
    {
      lastLedgerIndex := Some(index);
    }

    method MarkCycleSucceeded(count: nat, r: ScanResult)
      modifies this
      ensures State() == CountSuccess(old(State()), count, r)
    {
      succeeded := succeeded + 1;
      fetched := fetched + count;
      processed := processed + r.processed;
      skipped := skipped + r.skipped;
      failed := failed + r.failed;
    }

    method MarkCycleFailed(count: nat, r: ScanResult)
      modifies this
      ensures State() == CountFailure(old(State()), count, r)
    {
      failedCycles := failedCycles + 1;
      fetched := fetched + count;
      processed := processed + r.processed;
      skipped := skipped + r.skipped;
      failed := failed + r.failed;
    }

    method Synchronize(db: Session, client: LedgerClient, limit: nat, steps: seq<ScanStep>, ending: SyncEnding)
      requires db.Clean()
      modifies this, db, client
      ensures db.Clean()
      ensures State() == RunCycle(old(State()), Cycle(limit, old(client.answers), steps, ending))
      ensures
        match Fetch(old(client.answers))
        case None => db.committed == old(db.committed)
        case Some(txs) => db.committed == RowsAfter(old(db.committed), txs, steps, Reach(txs, steps))
      ensures client.asked == old(client.asked)
                + Requests(old(client.answers), LedgerIndexMin(old(lastLedgerIndex)), limit, None)
    {
      hide X.Process, Requests, Scanned;
      var min := -1;
      if lastLedgerIndex != None {
        min := lastLedgerIndex.value + 1;
      }
      var txs := FetchAccountTransactions(client, min, limit);
      if txs == None {
        if !ending.Killed? {
          MarkCycleFailed(0, NOTHING);
        }
        return;
      }
      var r := ScanXrplTransactions(db, txs.value, steps);
      if |steps| < |txs.value| {
        return;
      }
      var max := ExtractMaxLedgerIndex(txs.value);
      if max != None && r.failed == 0 && (ending == Finished || ending.stored) {
        UpdateLedgerCursor(max.value);
      }
      match ending {
        case Finished =>
          if r.failed == 0 {
            MarkCycleSucceeded(|txs.value|, r);
          } else {
            MarkCycleFailed(|txs.value|, r);
          }
        case RaisedLate(_) =>
          db.Rollback();
          MarkCycleFailed(|txs.value|, NOTHING);
        case Killed(_) =>
      }
    }
  }
}
