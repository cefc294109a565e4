/** The two readers of the intents table: keyset pages for the API and the batched CSV export. */
module Listing {
  import opened Common
  import opened Store
  import R = Ranking

  // --------------------------------------------------------------- queries

  datatype Filter = Filter(merchant: MerchantId, status: Option<Status>, reference: Option<string>,
                           createdFrom: Option<int>, createdTo: Option<int>)

  predicate Accepts(f: Filter, i: Intent) {
    && i.merchant == f.merchant
    && (f.status.Some? ==> i.status == f.status.value)
    && (f.reference.Some? ==> i.reference == Upper(f.reference.value))
    && (f.createdFrom.Some? ==> i.createdAt >= f.createdFrom.value)
    && (f.createdTo.Some? ==> i.createdAt <= f.createdTo.value)
  }

  datatype Position = Position(createdAt: int, id: IntentId)

  /** The keyset predicate. */
  predicate Follows(id: IntentId, i: Intent, c: Position) {
    i.createdAt < c.createdAt || (i.createdAt == c.createdAt && id < c.id)
  }

  /** created_at DESC, id DESC. */
  function ListKey(createdAt: int, id: IntentId): R.Key {
    R.Key(-createdAt, 0, 0, -id)
  }

  datatype Item = Item(id: IntentId, row: Intent)

  function KeyOf(x: Item): R.Key {
    ListKey(x.row.createdAt, x.id)
  }

  function Matching(s: Store, f: Filter, cursor: Option<Position>): (ks: set<R.Key>)
    ensures forall k <- ks :: -k.id in s.intents
  {
    set id <- s.intents | Accepts(f, s.intents[id]) && (cursor.Some? ==> Follows(id, s.intents[id], cursor.value)) ::
      ListKey(s.intents[id].createdAt, id)
  }

  /** The rows behind the keys of a query. */
  function Rows(s: Store, ks: seq<R.Key>): (items: seq<Item>)
    requires forall k <- ks :: -k.id in s.intents
    ensures |items| == |ks|
  {
    seq(|ks|, n requires 0 <= n < |ks| => assert ks[n] in ks; Item(-ks[n].id, s.intents[-ks[n].id]))
  }

  /** The repository's query: one row more than asked for tells whether there is more. */
  function ListRows(s: Store, f: Filter, cursor: Option<Position>, limit: nat): (seq<Item>, bool) {
    var found := Rows(s, R.First(Matching(s, f, cursor), limit + 1));
    (if |found| <= limit then found else found[..limit], |found| > limit)
  }

  datatype Reply = Listed(items: seq<Item>, next: Option<Position>) | InvalidFilter

  predicate BadRange(f: Filter) {
    f.createdFrom.Some? && f.createdTo.Some? && f.createdFrom.value > f.createdTo.value
  }

  function ListPaymentIntents(s: Store, f: Filter, cursor: Option<Position>, limit: nat): Reply {
    if BadRange(f) then InvalidFilter else
      var (items, more) := ListRows(s, f, cursor, limit);
      Listed(items, if more && items != [] then Some(PositionOf(items[|items| - 1])) else None)
  }

  function PositionOf(x: Item): Position {
    Position(x.row.createdAt, x.id)
  }

  // ---------------------------------------------------------------- export

  datatype Chunk = ByteOrderMark | Header | Row(item: Item)

  const CSV_BATCH_SIZE := 500

  function Lines(items: seq<Item>): (lines: seq<Chunk>)
    ensures |lines| == |items|
  {
    seq(|items|, n requires 0 <= n < |items| => Row(items[n]))
  }

  /**
   * The rows the export loop yields from batch `k` on; `view(k)` is the table
   * as the query of batch `k` sees it.
   */
  function Stream(view: nat -> Store, k: nat, f: Filter, cursor: Option<Position>, remaining: nat,
                  batchSize: nat): seq<Item>
    requires batchSize > 0
    decreases remaining
  {
    if remaining == 0 then [] else
      var (items, more) := ListRows(view(k), f, cursor, if batchSize < remaining then batchSize else remaining);
      if items == [] || |items| >= remaining || !more then items
      else items + Stream(view, k + 1, f, Some(PositionOf(items[|items| - 1])), remaining - |items|, batchSize)
  }

  lemma LinesJoin(a: seq<Item>, b: seq<Item>)
    ensures Lines(a + b) == Lines(a) + Lines(b)
  {
  }

  /** The inner loop: the rows of a batch, as long as the export has room. */
  method YieldBatch(sent: seq<Chunk>, items: seq<Item>, exported: nat, maxRows: nat)
    returns (out: seq<Chunk>, count: nat)
    requires exported < maxRows
    ensures exported + |items| <= maxRows ==> out == sent + Lines(items) && count == exported + |items|
    ensures exported + |items| > maxRows ==> out == sent + Lines(items[..maxRows - exported]) && count == maxRows
  {
    out, count := sent, exported;
    var n := 0;
    while n < |items|
      invariant n <= |items| && count == exported + n && (n < |items| ==> count < maxRows) && count <= maxRows
      invariant out == sent + Lines(items[..n])
    {
      out := out + [Row(items[n])];
      LinesJoin(items[..n], [items[n]]);
      assert items[..n + 1] == items[..n] + [items[n]];
      count := count + 1;
      n := n + 1;
      if count >= maxRows {
        break;
      }
    }
    assert items[..|items|] == items;
  }

  /** One batch more of the export: what has been sent stays a prefix of the goal. */
  lemma BatchSent(head: seq<Chunk>, done: seq<Item>, items: seq<Item>, rest: seq<Item>)
    ensures (head + Lines(done)) + Lines(items) == head + Lines(done + items)
    ensures done + (items + rest) == (done + items) + rest
    ensures done + [] == done
  {
    LinesJoin(done, items);
  }

  /** None is the refusal of the filter, before anything is sent. */
  method StreamPaymentIntentsCsv(view: nat -> Store, f: Filter, maxRows: nat) returns (out: Option<seq<Chunk>>)
    ensures out == if BadRange(f) then None
                   else Some([ByteOrderMark, Header] + Lines(Stream(view, 0, f, None, maxRows, CSV_BATCH_SIZE)))
  {
    hide ListRows, BadRange, Lines;
    if BadRange(f) {
      return None;
    }
    var sent := [ByteOrderMark, Header];
    ghost var head, done: seq<Item> := sent, [];
    BatchSent(head, [], [], []);
    var exported: nat := 0;
    var cursor: Option<Position> := None;
    var k: nat := 0;
    ghost var all := Stream(view, 0, f, None, maxRows, CSV_BATCH_SIZE);
    while exported < maxRows
      invariant exported <= maxRows
      invariant all == done + Stream(view, k, f, cursor, maxRows - exported, CSV_BATCH_SIZE)
      invariant sent == head + Lines(done)
      decreases maxRows - exported
    {
      var remaining := maxRows - exported;
      var limit := if CSV_BATCH_SIZE < remaining then CSV_BATCH_SIZE else remaining;
      var (items, more) := ListRows(view(k), f, cursor, limit);
      PageFits(view(k), f, cursor, limit);
      if items == [] {
        break;
      }
      BatchSent(head, done, items,
                Stream(view, k + 1, f, Some(PositionOf(items[|items| - 1])), remaining - |items|, CSV_BATCH_SIZE));
      BatchSent(head, done, items, []);
      sent, exported := YieldBatch(sent, items, exported, maxRows);
      done := done + items;
      if exported >= maxRows || !more {
        break;
      }
      cursor := Some(PositionOf(items[|items| - 1]));
      k := k + 1;
    }
    assert all == done;
    return Some(sent);
  }

  lemma PageFits(s: Store, f: Filter, cursor: Option<Position>, limit: nat)
    ensures |ListRows(s, f, cursor, limit).0| <= limit
  {
  }
}
