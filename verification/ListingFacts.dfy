/** Pages and batches against the plain reference: filter the table, sort it, take the first rows. */
module ListingFacts {
  import opened Common
  import opened Store
  import opened Listing
  import R = Ranking

  /** The reference: the rows that match and follow the cursor, newest first. */
  function Ranked(s: Store, f: Filter, cursor: Option<Position>): seq<Item> {
    Rows(s, R.Sorted(Matching(s, f, cursor)))
  }

  function Take<T>(s: seq<T>, n: nat): seq<T> {
    if n < |s| then s[..n] else s
  }

  function Keys(items: seq<Item>): (ks: seq<R.Key>)
    ensures |ks| == |items|
  {
    seq(|items|, n requires 0 <= n < |items| => KeyOf(items[n]))
  }

  function PositionKey(c: Position): R.Key {
    ListKey(c.createdAt, c.id)
  }

  /** Listed rows are rows of the table that the filter accepts, under their own keys. */
  lemma RowsOfMatching(s: Store, f: Filter, cursor: Option<Position>, ks: seq<R.Key>)
    requires forall k <- ks :: k in Matching(s, f, cursor) && -k.id in s.intents
    ensures Keys(Rows(s, ks)) == ks
    ensures forall x <- Rows(s, ks) :: x.id in s.intents && s.intents[x.id] == x.row && Accepts(f, x.row)
  {
    var items := Rows(s, ks);
    forall n | 0 <= n < |ks|
      ensures KeyOf(items[n]) == ks[n] && items[n].id in s.intents && s.intents[items[n].id] == items[n].row
        && Accepts(f, items[n].row)
    {
      assert ks[n] in ks;
    }
    forall x <- items ensures x.id in s.intents && s.intents[x.id] == x.row && Accepts(f, x.row) {
      var n :| 0 <= n < |items| && items[n] == x;
    }
  }

  lemma FirstIsTake(ks: set<R.Key>, n: nat)
    ensures R.First(ks, n) == Take(R.Sorted(ks), n)
  {
  }

  lemma RowsOfPart(s: Store, ks: seq<R.Key>, n: nat)
    requires n <= |ks| && forall k <- ks :: -k.id in s.intents
    ensures Rows(s, ks[..n]) == Rows(s, ks)[..n] && Rows(s, ks[n..]) == Rows(s, ks)[n..]
  {
  }

  /** A page is the first `limit` rows of the reference, and knows whether that is all. */
  lemma PageIsFirst(s: Store, f: Filter, cursor: Option<Position>, limit: nat)
    ensures ListRows(s, f, cursor, limit) == (Take(Ranked(s, f, cursor), limit), |Ranked(s, f, cursor)| > limit)
  {
    hide Matching, R.First, R.Sorted, Rows;
    var ks := R.Sorted(Matching(s, f, cursor));
    FirstIsTake(Matching(s, f, cursor), limit + 1);
    if limit + 1 <= |ks| {
      RowsOfPart(s, ks, limit + 1);
      assert Rows(s, ks)[..limit + 1][..limit] == Rows(s, ks)[..limit];
    }
  }

  lemma Chained(a: R.Key, b: R.Key, c: R.Key)
    requires R.Before(a, b) && R.Before(b, c)
    ensures R.Before(a, c)
  {
  }

  /** The keyset predicate is the order of the listing. */
  lemma FollowsIsBefore(id: IntentId, i: Intent, c: Position)
    ensures Follows(id, i, c) <==> R.Before(PositionKey(c), ListKey(i.createdAt, id))
  {
  }

  /** A query from the cursor of a listed row goes on exactly behind that row. */
  lemma CursorContinues(s: Store, f: Filter, cursor: Option<Position>, n: nat)
    requires n < |Ranked(s, f, cursor)|
    ensures Ranked(s, f, Some(PositionOf(Ranked(s, f, cursor)[n]))) == Ranked(s, f, cursor)[n + 1..]
  {
    hide Matching, R.Sorted, Rows;
    var ks := Matching(s, f, cursor);
    var sorted := R.Sorted(ks);
    RowsOfMatching(s, f, cursor, sorted);
    RowsOfPart(s, sorted, n + 1);
    var c := PositionOf(Ranked(s, f, cursor)[n]);
    assert PositionKey(c) == Keys(Ranked(s, f, cursor))[n] == sorted[n];
    assert sorted[n] in ks;
    MatchingAfter(s, f, cursor, c);
    R.SortedAfter(ks, sorted, n);
  }

  lemma MatchingAfter(s: Store, f: Filter, cursor: Option<Position>, c: Position)
    requires PositionKey(c) in Matching(s, f, cursor)
    ensures Matching(s, f, Some(c)) == R.After(Matching(s, f, cursor), PositionKey(c))
  {
    forall id <- s.intents
      ensures Follows(id, s.intents[id], c) && cursor.Some? ==> Follows(id, s.intents[id], cursor.value)
    {
    }
    forall k ensures k in Matching(s, f, Some(c)) <==> k in R.After(Matching(s, f, cursor), PositionKey(c)) {
      if k in R.After(Matching(s, f, cursor), PositionKey(c)) {
        FollowsIsBefore(-k.id, s.intents[-k.id], c);
      }
    }
    assert Matching(s, f, Some(c)) == R.After(Matching(s, f, cursor), PositionKey(c));
  }

  // ------------------------------------------------------------- traversals

  /** What a client collects, and whether it has reached the end. */
  datatype Walk = Walk(items: seq<Item>, done: bool)

  /** Following next_cursor: page `j` is answered from table `tables[j]`. */
  function Follow(tables: seq<Store>, f: Filter, cursor: Option<Position>, limit: nat): Walk {
    if tables == [] then Walk([], false) else
      match ListPaymentIntents(tables[0], f, cursor, limit)
      case InvalidFilter => Walk([], false)
      case Listed(items, None) => Walk(items, true)
      case Listed(items, next) => var rest := Follow(tables[1..], f, next, limit); Walk(items + rest.items, rest.done)
  }

  /** How many rows so many pages can hold. */
  function Capacity(pages: nat, limit: nat): nat {
    pages * limit
  }

  /**
   * On a table at rest `n` pages are the first n * limit rows of the filtered
   * and sorted table, each once, and the last cursor comes exactly at its end.
   */
  lemma {:induction false} PagesAreTheList(tables: seq<Store>, s: Store, f: Filter, cursor: Option<Position>,
                                           limit: nat)
    requires limit >= 1 && !BadRange(f) && forall j :: 0 <= j < |tables| ==> tables[j] == s
    ensures
      var w, all := Follow(tables, f, cursor, limit), Ranked(s, f, cursor);
      && w.items == Take(all, Capacity(|tables|, limit))
      && (w.done <==> tables != [] && |all| <= Capacity(|tables|, limit))
    decreases |tables|
  {
    hide ListRows, Ranked, BadRange, Take, PositionOf, Capacity;
    OnePageLess(|tables|, limit);
    var all := Ranked(s, f, cursor);
    NoRows(all);
    if tables != [] {
      PageIsFirst(s, f, cursor, limit);
      AllTaken(all, limit);
      if |all| > limit {
        var later := Capacity(|tables| - 1, limit);
        CursorContinues(s, f, cursor, limit - 1);
        PagesAreTheList(tables[1..], s, f, Some(PositionOf(all[limit - 1])), limit);
        TakeMore(all, limit, later);
      } else {
        AllTaken(all, Capacity(|tables|, limit));
      }
    }
  }

  lemma OnePageLess(n: nat, limit: nat)
    ensures Capacity(0, limit) == 0
    ensures n > 0 ==> Capacity(n, limit) == limit + Capacity(n - 1, limit)
  {
  }

  lemma NoRows<T>(all: seq<T>)
    ensures Take(all, 0) == []
  {
  }

  lemma AllTaken<T>(all: seq<T>, n: nat)
    ensures |all| <= n ==> Take(all, n) == all
    ensures |all| > n > 0 ==> |Take(all, n)| == n && Take(all, n)[n - 1] == all[n - 1]
  {
  }

  lemma TakeMore<T>(all: seq<T>, n: nat, more: nat)
    requires n < |all|
    ensures Take(all, n) + Take(all[n..], more) == Take(all, n + more)
  {
  }

  /** A page of some table: rows in order, behind the cursor, and nothing left out before its end. */
  lemma PageUnderChange(s: Store, f: Filter, cursor: Option<Position>, limit: nat)
    requires limit >= 1
    ensures
      var (items, more) := ListRows(s, f, cursor, limit);
      && R.Ascending(Keys(items))
      && (forall x <- items :: x.id in s.intents && s.intents[x.id] == x.row && Accepts(f, x.row))
      && (cursor.Some? ==> forall k <- Keys(items) :: R.Before(PositionKey(cursor.value), k))
      && (!more ==> forall k <- Matching(s, f, cursor) :: k in Keys(items))
      && (more ==> && items != []
                   && forall k <- Matching(s, f, cursor) ::
                        k in Keys(items) || R.Before(PositionKey(PositionOf(items[|items| - 1])), k))
  {
    hide ListRows, Matching, R.Sorted, Accepts, R.Before, Rows;
    PageIsFirst(s, f, cursor, limit);
    var ks := Matching(s, f, cursor);
    var sorted := R.Sorted(ks);
    RowsOfMatching(s, f, cursor, sorted);
    var items := Take(Ranked(s, f, cursor), limit);
    assert Keys(items) == Take(sorted, limit);
    forall k <- Keys(items) ensures cursor.Some? ==> R.Before(PositionKey(cursor.value), k) {
      assert k in ks;
      MatchingIsBehind(s, f, cursor, k);
    }
    if |sorted| > limit {
      assert PositionKey(PositionOf(items[limit - 1])) == Keys(items)[limit - 1] == sorted[limit - 1];
      forall k <- ks ensures k in Keys(items) || R.Before(sorted[limit - 1], k) {
        var m :| 0 <= m < |sorted| && sorted[m] == k;
        if m < limit { assert Keys(items)[m] == k; }
      }
    }
  }

  lemma MatchingIsBehind(s: Store, f: Filter, cursor: Option<Position>, k: R.Key)
    requires k in Matching(s, f, cursor)
    ensures cursor.Some? ==> R.Before(PositionKey(cursor.value), k)
  {
    if cursor.Some? { FollowsIsBefore(-k.id, s.intents[-k.id], cursor.value); }
  }

  /**
   * Rows may be inserted, settled or deleted between the pages: a traversal
   * never goes back or repeats a row, and once complete it holds every row
   * that matched throughout.
   */
  lemma {:induction false} TraversalUnderChange(tables: seq<Store>, f: Filter, cursor: Option<Position>, limit: nat)
    requires limit >= 1
    ensures
      var w := Follow(tables, f, cursor, limit);
      && R.Ascending(Keys(w.items))
      && (cursor.Some? ==> forall k <- Keys(w.items) :: R.Before(PositionKey(cursor.value), k))
      && (w.done ==> forall k :: (forall s <- tables :: k in Matching(s, f, cursor)) ==> k in Keys(w.items))
    decreases |tables|
  {
    hide ListRows, Matching;
    if tables != [] && !BadRange(f) {
      var s := tables[0];
      PageUnderChange(s, f, cursor, limit);
      var (items, more) := ListRows(s, f, cursor, limit);
      if more {
        var next := PositionOf(items[|items| - 1]);
        TraversalUnderChange(tables[1..], f, Some(next), limit);
        var rest := Follow(tables[1..], f, Some(next), limit);
        KeysJoin(items, rest.items);
        JoinedAscending(cursor, items, rest.items);
        if rest.done {
          forall k | (forall t <- tables :: k in Matching(t, f, cursor)) ensures k in Keys(items + rest.items) {
            assert k in Matching(s, f, cursor);
            if k !in Keys(items) { BehindNext(tables[1..], f, cursor, next, k); }
          }
        }
      }
    }
  }

  lemma KeysJoin(a: seq<Item>, b: seq<Item>)
    ensures Keys(a + b) == Keys(a) + Keys(b)
  {
  }

  lemma JoinedAscending(cursor: Option<Position>, a: seq<Item>, b: seq<Item>)
    requires a != [] && R.Ascending(Keys(a)) && R.Ascending(Keys(b))
    requires forall k <- Keys(b) :: R.Before(PositionKey(PositionOf(a[|a| - 1])), k)
    requires cursor.Some? ==> forall k <- Keys(a) :: R.Before(PositionKey(cursor.value), k)
    ensures R.Ascending(Keys(a) + Keys(b))
    ensures cursor.Some? ==> forall k <- Keys(a) + Keys(b) :: R.Before(PositionKey(cursor.value), k)
  {
    var ks := Keys(a) + Keys(b);
    var last := Keys(a)[|a| - 1];
    assert last in Keys(a) && last == PositionKey(PositionOf(a[|a| - 1]));
    forall i, j | 0 <= i < j < |ks| ensures R.Before(ks[i], ks[j]) {
      if i < |a| <= j {
        assert ks[j] in Keys(b);
        if i < |a| - 1 { Chained(ks[i], last, ks[j]); }
      }
    }
    if cursor.Some? {
      forall k <- Keys(b)
        ensures R.Before(PositionKey(cursor.value), k) { Chained(PositionKey(cursor.value), last, k); }
    }
  }

  /** A row that matches throughout and is behind the next cursor matches all later queries. */
  lemma BehindNext(tables: seq<Store>, f: Filter, cursor: Option<Position>, next: Position, k: R.Key)
    requires R.Before(PositionKey(next), k) && forall t <- tables :: k in Matching(t, f, cursor)
    ensures forall t <- tables :: k in Matching(t, f, Some(next))
  {
    forall t <- tables ensures k in Matching(t, f, Some(next)) {
      FollowsIsBefore(-k.id, t.intents[-k.id], next);
    }
  }

  /**
   * With no status filter, whatever the processes do between the pages, a
   * complete traversal lists every intent that matched when it began.
   */
  lemma NoIntentIsLost(tables: seq<Store>, f: Filter, limit: nat, id: IntentId)
    requires limit >= 1 && f.status.None? && tables != [] && forall t <- tables :: Evolves(tables[0], t)
    requires id in tables[0].intents && Accepts(f, tables[0].intents[id])
    requires Follow(tables, f, None, limit).done
    ensures exists x <- Follow(tables, f, None, limit).items :: x.id == id
  {
    hide Follow;
    TraversalUnderChange(tables, f, None, limit);
    var k := ListKey(tables[0].intents[id].createdAt, id);
    forall t <- tables ensures k in Matching(t, f, None) {
      assert IntentEvolves(tables[0].intents[id], t.intents[id]);
    }
    var items := Follow(tables, f, None, limit).items;
    assert k in Keys(items);
    var n :| 0 <= n < |items| && Keys(items)[n] == k;
    assert items[n] in items;
  }

  // ---------------------------------------------------------------- export

  /** The export is the first `remaining` rows of the reference, whatever the size of its batches. */
  lemma {:induction false} StreamIsTheList(view: nat -> Store, s: Store, k: nat, f: Filter, cursor: Option<Position>,
                                           remaining: nat, batchSize: nat)
    requires batchSize > 0 && forall j :: view(j) == s
    ensures Stream(view, k, f, cursor, remaining, batchSize) == Take(Ranked(s, f, cursor), remaining)
    decreases remaining
  {
    hide ListRows, Ranked, Take, PositionOf;
    var all := Ranked(s, f, cursor);
    NoRows(all);
    if remaining > 0 {
      var limit := if batchSize < remaining then batchSize else remaining;
      AllTaken(all, limit);
      AllTaken(all, remaining);
      PageIsFirst(s, f, cursor, limit);
      assert view(k) == s;
      if |all| > limit && limit < remaining {
        CursorContinues(s, f, cursor, limit - 1);
        StreamIsTheList(view, s, k + 1, f, Some(PositionOf(all[limit - 1])), remaining - limit, batchSize);
        TakeMore(all, limit, remaining - limit);
      }
    }
  }

  // ------------------------------------------- what a caller is shown at all

  /** The row is the merchant's, has the asked status and reference, and was created within both bounds. */
  ghost predicate Asked(f: Filter, row: Intent) {
    && row.merchant == f.merchant
    && (f.status == None || Some(row.status) == f.status)
    && (f.reference == None || row.reference == Upper(f.reference.value))
    && (f.createdFrom == None || f.createdFrom.value <= row.createdAt)
    && (f.createdTo == None || row.createdAt <= f.createdTo.value)
  }

  /** An item is a row of the table, and it was asked for. */
  ghost predicate Shown(s: Store, f: Filter, x: Item) {
    x.id in s.intents && s.intents[x.id] == x.row && Asked(f, x.row)
  }

  /** Newest first; rows of one instant by descending id. */
  ghost predicate NewestFirst(items: seq<Item>) {
    forall i, j :: 0 <= i < j < |items| ==>
      || items[i].row.createdAt > items[j].row.createdAt
      || (items[i].row.createdAt == items[j].row.createdAt && items[i].id > items[j].id)
  }

  lemma AcceptedIsAsked(f: Filter, row: Intent)
    ensures Accepts(f, row) <==> Asked(f, row)
  {
  }

  lemma KeysInOrder(items: seq<Item>)
    requires R.Ascending(Keys(items))
    ensures NewestFirst(items)
  {
    forall i, j | 0 <= i < j < |items| ensures R.Before(KeyOf(items[i]), KeyOf(items[j])) {
      assert R.Before(Keys(items)[i], Keys(items)[j]);
    }
  }

  lemma AskedIsRanked(s: Store, f: Filter, x: Item)
    requires Shown(s, f, x)
    ensures x in Ranked(s, f, None)
  {
    hide Accepts, Asked, R.Sorted;
    AcceptedIsAsked(f, x.row);
    var sorted := R.Sorted(Matching(s, f, None));
    assert ListKey(x.row.createdAt, x.id) in Matching(s, f, None);
    var n :| 0 <= n < |sorted| && sorted[n] == ListKey(x.row.createdAt, x.id);
    assert Ranked(s, f, None)[n] == x;
  }

  lemma RankedIsShown(s: Store, f: Filter, cursor: Option<Position>)
    ensures forall x <- Ranked(s, f, cursor) :: Shown(s, f, x)
    ensures NewestFirst(Ranked(s, f, cursor))
    ensures cursor == None ==> forall x :: Shown(s, f, x) ==> x in Ranked(s, f, cursor)
  {
    hide Accepts, Asked, R.Sorted, Matching, Rows, NewestFirst;
    var sorted := R.Sorted(Matching(s, f, cursor));
    RowsOfMatching(s, f, cursor, sorted);
    forall x <- Ranked(s, f, cursor) ensures Asked(f, x.row) { AcceptedIsAsked(f, x.row); }
    KeysInOrder(Ranked(s, f, cursor));
    forall x | cursor == None && Shown(s, f, x) ensures x in Ranked(s, f, cursor) { AskedIsRanked(s, f, x); }
  }

  /** A page shows rows of its table that were asked for, newest first; a page with room for all shows them all. */
  lemma PagesShowWhatIsAsked(s: Store, f: Filter, cursor: Option<Position>, limit: nat)
    ensures
      var items := ListRows(s, f, cursor, limit).0;
      && |items| <= limit && (forall x <- items :: Shown(s, f, x)) && NewestFirst(items)
      && (cursor == None && |s.intents| <= limit ==> forall x :: x in items <==> Shown(s, f, x))
  {
    hide ListRows, Shown, Ranked;
    PageIsFirst(s, f, cursor, limit);
    RankedIsShown(s, f, cursor);
    RankedFits(s, f, cursor);
    assert forall x <- ListRows(s, f, cursor, limit).0 :: x in Ranked(s, f, cursor);
  }

  lemma RankedFits(s: Store, f: Filter, cursor: Option<Position>)
    ensures |Ranked(s, f, cursor)| <= |s.intents|
  {
    var ids := set id <- s.intents.Keys | ListKey(s.intents[id].createdAt, id) in Matching(s, f, cursor);
    KeyCount(Matching(s, f, cursor), s.intents.Keys);
  }

  /** Keys with different ids out of a set are no more than the set. */
  lemma {:induction false} KeyCount(ks: set<R.Key>, ids: set<int>)
    requires forall k <- ks :: -k.id in ids
    requires forall k, x :: k in ks && x in ks && k.id == x.id ==> k == x
    ensures |ks| <= |ids|
  {
    if ks != {} {
      var k := Pick(ks);
      KeyCount(ks - {k}, ids - {-k.id});
    }
  }

  /** The range is refused exactly when its bounds are the wrong way round, whatever else is asked. */
  lemma RangeIsChecked(s: Store, f: Filter, cursor: Option<Position>, limit: nat)
    ensures ListPaymentIntents(s, f, cursor, limit) == InvalidFilter
       <==> f.createdFrom.Some? && f.createdTo.Some? && f.createdTo.value < f.createdFrom.value
  {
    hide ListRows;
  }

  /** A traversal shows only rows that were asked for, each from the table its page was read from. */
  lemma {:induction false} TraversalsShowWhatIsAsked(tables: seq<Store>, f: Filter, cursor: Option<Position>,
                                                     limit: nat)
    ensures forall x <- Follow(tables, f, cursor, limit).items :: exists s <- tables :: Shown(s, f, x)
    decreases |tables|
  {
    hide ListRows, Shown;
    if tables != [] {
      assert tables[0] in tables;
      PagesShowWhatIsAsked(tables[0], f, cursor, limit);
      match ListPaymentIntents(tables[0], f, cursor, limit) {
        case Listed(items, Some(p)) =>
          TraversalsShowWhatIsAsked(tables[1..], f, Some(p), limit);
          var rest := Follow(tables[1..], f, Some(p), limit).items;
          forall x <- rest ensures exists s <- tables :: Shown(s, f, x) {
            var s :| s in tables[1..] && Shown(s, f, x);
            assert s in tables;
          }
        case _ =>
      }
    }
  }

  /** The export shows only rows that were asked for, each from the table its batch was read from. */
  lemma {:induction false} ExportsShowWhatIsAsked(view: nat -> Store, k: nat, f: Filter, cursor: Option<Position>,
                                                  remaining: nat, batchSize: nat)
    requires batchSize > 0
    ensures |Stream(view, k, f, cursor, remaining, batchSize)| <= remaining
    ensures forall x <- Stream(view, k, f, cursor, remaining, batchSize) :: exists j: nat :: Shown(view(j), f, x)
    decreases remaining
  {
    hide ListRows, Shown;
    if remaining > 0 {
      var limit := if batchSize < remaining then batchSize else remaining;
      PagesShowWhatIsAsked(view(k), f, cursor, limit);
      var (items, more) := ListRows(view(k), f, cursor, limit);
      if items != [] && |items| < remaining && more {
        ExportsShowWhatIsAsked(view, k + 1, f, Some(PositionOf(items[|items| - 1])), remaining - |items|, batchSize);
      }
    }
  }

  /** On a table at rest an export with room for all rows is exactly what was asked for, newest first. */
  lemma ExportIsWhatIsAsked(view: nat -> Store, s: Store, f: Filter, maxRows: nat)
    requires (forall j :: view(j) == s) && |s.intents| <= maxRows
    ensures
      var items := Stream(view, 0, f, None, maxRows, CSV_BATCH_SIZE);
      NewestFirst(items) && forall x :: x in items <==> Shown(s, f, x)
  {
    hide Stream, Ranked, Shown;
    StreamIsTheList(view, s, 0, f, None, maxRows, CSV_BATCH_SIZE);
    RankedIsShown(s, f, None);
    RankedFits(s, f, None);
  }
}
