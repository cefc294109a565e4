/** The listing as its clients see it: pages linked by the encoded text of a cursor. */
module ListingTexts {
  import opened Common
  import opened Store
  import opened Listing
  import opened ListingFacts
  import opened Cursors
  import opened Json
  import R = Ranking

  /**
   * How the columns of a row appear to the service: the datetime of an instant
   * and the text of an id.
   */
  datatype Columns = Columns(time: int -> DateTime, name: IntentId -> string, id: string -> IntentId)

  /** The instant can be shown in UTC. */
  predicate InCalendar(t: int) {
    0 <= t < 1000000 * (86400 * DaysBefore(10000, 1))
  }

  /** Datetimes tell their instants; names are not empty and identify their rows. */
  ghost predicate Faithful(c: Columns) {
    && (forall t :: InCalendar(t) ==> ValidTime(c.time(t)) && Instant(c.time(t)) == t)
    && (forall i :: c.name(i) != "" && c.id(c.name(i)) == i)
  }

  ghost function TimeOf(t: int): DateTime {
    if exists s :: ShowsInstant(s, t) then
      var s :| ShowsInstant(s, t);
      DateTime(s, Some(0))
    else DateTime(Stamp(1, 1, 1, 0, 0, 0, 0), None)
  }

  ghost predicate ShowsInstant(s: Stamp, t: int) {
    ValidStamp(s) && Instant(DateTime(s, Some(0))) == t
  }

  function NameOf(i: IntentId): string {
    Digits(if i >= 0 then 2 * i else -2 * i - 1)
  }

  ghost function IdOf(text: string): IntentId {
    if exists i :: NameOf(i) == text then
      var i :| NameOf(i) == text;
      i
    else 0
  }

  /** There are such columns: times in UTC, and ids written as numbers. */
  lemma ColumnsExist() returns (c: Columns)
    ensures Faithful(c)
  {
    hide Instant, DaysBefore, Digits;
    c := Columns(t => TimeOf(t), i => NameOf(i), text => IdOf(text));
    forall t | InCalendar(t) ensures ValidTime(TimeOf(t)) && Instant(TimeOf(t)) == t {
      var s := InstantExists(t);
      assert ShowsInstant(s, t);
    }
    forall i: int ensures NameOf(i) != "" && IdOf(NameOf(i)) == i {
      var j := IdOf(NameOf(i));
      assert NameOf(j) == NameOf(i);
      DigitsInjective(if i >= 0 then 2 * i else -2 * i - 1, if j >= 0 then 2 * j else -2 * j - 1);
    }
  }

  /** None is the overflow of an instant that UTC cannot show. */
  function PositionText(c: Columns, p: Position): Option<string> {
    if ValidTime(c.time(p.createdAt)) then EncodeCursor(Cursor(c.time(p.createdAt), c.name(p.id))) else None
  }

  /** None is the error of a text that is not a cursor. */
  function TextPosition(c: Columns, text: string): Option<Position> {
    match DecodeCursor(text)
    case Decoded(s, id) =>
      if ValidStamp(s) then Some(Position(Instant(DateTime(s, Some(0))), c.id(id))) else None
    case _ => None
  }

  /** A position survives its text, and has one whenever its instant is in the calendar. */
  lemma PositionRoundTrip(c: Columns, p: Position)
    requires Faithful(c) && InCalendar(p.createdAt)
    ensures PositionText(c, p).Some? && TextPosition(c, PositionText(c, p).value) == Some(p)
  {
    hide EncodeCursor, DecodeCursor, Instant, ValidTime, ValidStamp, DaysBefore;
    var cursor := Cursor(c.time(p.createdAt), c.name(p.id));
    EncodesWithinTheCalendar(cursor);
    CursorRoundTrip(cursor);
  }

  datatype TextReply = Page(items: seq<Item>, next: Option<string>) | BadFilter | BadCursor | Failure

  /** The service: the filter is checked before the cursor is read. */
  function ListByText(c: Columns, s: Store, f: Filter, text: Option<string>, limit: nat): TextReply {
    if BadRange(f) then BadFilter
    else if text.Some? && TextPosition(c, text.value).None? then BadCursor
    else
      match ListPaymentIntents(s, f, if text.None? then None else TextPosition(c, text.value), limit)
      case InvalidFilter => BadFilter
      case Listed(items, None) => Page(items, None)
      case Listed(items, Some(p)) => if PositionText(c, p).None? then Failure else Page(items, PositionText(c, p))
  }

  /** Following the texts. */
  function FollowTexts(c: Columns, tables: seq<Store>, f: Filter, text: Option<string>, limit: nat): Walk {
    if tables == [] then Walk([], false) else
      match ListByText(c, tables[0], f, text, limit)
      case Page(items, None) => Walk(items, true)
      case Page(items, next) =>
        var rest := FollowTexts(c, tables[1..], f, next, limit);
        Walk(items + rest.items, rest.done)
      case _ => Walk([], false)
  }

  /** All rows were created within the calendar. */
  ghost predicate Dated(s: Store) {
    forall i <- s.intents :: InCalendar(s.intents[i].createdAt)
  }

  /** The text stands for the position. */
  ghost predicate StandsFor(c: Columns, text: Option<string>, cursor: Option<Position>) {
    if text.None? then cursor.None? else cursor.Some? && TextPosition(c, text.value) == cursor
  }

  /** The cursor of a page is the position of a row of the table. */
  lemma NextIsDated(s: Store, f: Filter, cursor: Option<Position>, limit: nat)
    requires Dated(s)
    ensures
      var r := ListPaymentIntents(s, f, cursor, limit);
      r.Listed? && r.next.Some? ==> InCalendar(r.next.value.createdAt)
  {
    hide ListRows, InCalendar, Matching, R.Sorted, Accepts;
    PageIsFirst(s, f, cursor, limit);
    var sorted := R.Sorted(Matching(s, f, cursor));
    RowsOfMatching(s, f, cursor, sorted);
    var items := ListRows(s, f, cursor, limit).0;
    assert forall x <- items :: x in Ranked(s, f, cursor);
    assert items != [] ==> items[|items| - 1] in items;
  }

  /** Following the texts collects what following the positions collects. */
  lemma {:induction false} TextsFollowPositions(c: Columns, tables: seq<Store>, f: Filter, text: Option<string>,
                                                cursor: Option<Position>, limit: nat)
    requires Faithful(c) && StandsFor(c, text, cursor) && forall s <- tables :: Dated(s)
    ensures FollowTexts(c, tables, f, text, limit) == Follow(tables, f, cursor, limit)
    decreases |tables|
  {
    hide ListPaymentIntents, TextPosition, PositionText, Dated, ValidTime, InCalendar;
    if tables != [] {
      assert tables[0] in tables;
      NextIsDated(tables[0], f, cursor, limit);
      BadFilters(tables[0], f, cursor, limit);
      var r := ListPaymentIntents(tables[0], f, cursor, limit);
      if r.Listed? && r.next.Some? {
        PositionRoundTrip(c, r.next.value);
        TextsFollowPositions(c, tables[1..], f, PositionText(c, r.next.value), r.next, limit);
      }
    }
  }

  lemma BadFilters(s: Store, f: Filter, cursor: Option<Position>, limit: nat)
    ensures ListPaymentIntents(s, f, cursor, limit).InvalidFilter? <==> BadRange(f)
  {
    hide ListRows;
  }

  /**
   * On a table at rest n pages linked by texts are the first n * limit rows of
   * the filtered and sorted table, each once, and the last comes at its end.
   */
  lemma TextPagesAreTheList(c: Columns, tables: seq<Store>, s: Store, f: Filter, limit: nat)
    requires Faithful(c) && Dated(s) && limit >= 1 && !BadRange(f) && forall j :: 0 <= j < |tables| ==> tables[j] == s
    ensures
      var w, all := FollowTexts(c, tables, f, None, limit), Ranked(s, f, None);
      && w.items == Take(all, Capacity(|tables|, limit))
      && (w.done <==> tables != [] && |all| <= Capacity(|tables|, limit))
  {
    hide FollowTexts, Follow, Dated, ValidTime, Ranked, BadRange, Capacity;
    TextsFollowPositions(c, tables, f, None, None, limit);
    PagesAreTheList(tables, s, f, None, limit);
  }

  /**
   * While the table changes between the pages a traversal by texts goes
   * strictly onwards, and once complete it holds every row that matched
   * throughout.
   */
  lemma TextTraversalUnderChange(c: Columns, tables: seq<Store>, f: Filter, limit: nat)
    requires Faithful(c) && limit >= 1 && forall s <- tables :: Dated(s)
    ensures
      var w := FollowTexts(c, tables, f, None, limit);
      && R.Ascending(Keys(w.items))
      && (w.done ==> forall k :: (forall s <- tables :: k in Matching(s, f, None)) ==> k in Keys(w.items))
  {
    hide FollowTexts, Follow, Dated, ValidTime, Matching;
    TextsFollowPositions(c, tables, f, None, None, limit);
    TraversalUnderChange(tables, f, None, limit);
  }
}
