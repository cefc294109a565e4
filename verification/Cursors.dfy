/**
 * The text of a pagination cursor: an instant and an id, as canonical JSON in
 * URL-safe base64.
 */
module Cursors {
  import opened Common
  import opened Json
  import opened Base64

  // ------------------------------------------------------------ date and time

  /** The fields of a datetime. */
  datatype Stamp = Stamp(year: int, month: int, day: int, hour: int, minute: int, second: int, micro: int)

  /** Without an offset a datetime is naive; an offset is in seconds east of UTC. */
  datatype DateTime = DateTime(stamp: Stamp, offset: Option<int>)

  predicate IsLeap(y: int) {
    y % 4 == 0 && (y % 100 != 0 || y % 400 == 0)
  }

  function DaysIn(y: int, m: int): int {
    if m == 2 then (if IsLeap(y) then 29 else 28)
    else if m == 4 || m == 6 || m == 9 || m == 11 then 30
    else 31
  }

  predicate ValidStamp(s: Stamp) {
    && 1 <= s.year <= 9999 && 1 <= s.month <= 12 && 1 <= s.day <= DaysIn(s.year, s.month)
    && 0 <= s.hour < 24 && 0 <= s.minute < 60 && 0 <= s.second < 60 && 0 <= s.micro < 1000000
  }

  predicate ValidTime(t: DateTime) {
    ValidStamp(t.stamp) && (t.offset.Some? ==> -86400 < t.offset.value < 86400)
  }

  /** Days from the first of January of the year 1 to the first of the month. */
  function DaysBefore(y: int, m: int): int
    requires 1 <= m <= 12
  {
    if m == 1 then 365 * (y - 1) + (y - 1) / 4 - (y - 1) / 100 + (y - 1) / 400
    else DaysBefore(y, m - 1) + DaysIn(y, m - 1)
  }

  /** Seconds from the start of the year 1. */
  function Seconds(s: Stamp): int
    requires 1 <= s.month <= 12
  {
    86400 * (DaysBefore(s.year, s.month) + s.day - 1) + 3600 * s.hour + 60 * s.minute + s.second
  }

  /** The microseconds from the start of the year 1, in UTC. */
  function Instant(t: DateTime): int
    requires 1 <= t.stamp.month <= 12
  {
    1000000 * (Seconds(t.stamp) - if t.offset.Some? then t.offset.value else 0) + t.stamp.micro
  }

  function NextDay(s: Stamp): Stamp {
    if s.day < DaysIn(s.year, s.month) then s.(day := s.day + 1)
    else if s.month < 12 then s.(month := s.month + 1, day := 1)
    else s.(year := s.year + 1, month := 1, day := 1)
  }

  function PreviousDay(s: Stamp): Stamp {
    if s.day > 1 then s.(day := s.day - 1)
    else if s.month > 1 then s.(month := s.month - 1, day := DaysIn(s.year, s.month - 1))
    else s.(year := s.year - 1, month := 12, day := 31)
  }

  /** The stamp with another time of day, given in seconds. */
  function AtSecond(s: Stamp, t: int): Stamp {
    s.(hour := t / 3600, minute := t / 60 % 60, second := t % 60)
  }

  /** The fields in UTC, whether or not their year is supported. */
  function Shift(s: Stamp, offset: int): Stamp {
    var second := 3600 * s.hour + 60 * s.minute + s.second - offset;
    if second < 0 then AtSecond(PreviousDay(s), second + 86400)
    else if second >= 86400 then AtSecond(NextDay(s), second - 86400)
    else AtSecond(s, second)
  }

  /** None is the overflow of the supported years. */
  function EnsureUtc(t: DateTime): Option<Stamp> {
    if t.offset.None? then Some(t.stamp) else
      var s := Shift(t.stamp, t.offset.value);
      if 1 <= s.year <= 9999 then Some(s) else None
  }

  /** The months of a common year. */
  const MONTHS := [31, 28, 31, 30, 31, 30, 31, 31, 30, 31, 30, 31]

  /** Leap years are those divisible by 400, and those divisible by 4 but not by 100. */
  lemma MonthLengths(y: int, m: int)
    requires 1 <= m <= 12
    ensures DaysIn(y, m) == MONTHS[m - 1] + if m == 2 && (y % 400 == 0 || (y % 4 == 0 && y % 100 != 0)) then 1 else 0
  {
  }

  lemma YearLength(y: int)
    ensures DaysBefore(y + 1, 1) == DaysBefore(y, 12) + 31
  {
    assert DaysBefore(y, 12)
        == DaysBefore(y, 7) + DaysIn(y, 7) + DaysIn(y, 8) + DaysIn(y, 9) + DaysIn(y, 10) + DaysIn(y, 11) by {
      assert DaysBefore(y, 9) == DaysBefore(y, 8) + DaysIn(y, 8);
      assert DaysBefore(y, 11) == DaysBefore(y, 10) + DaysIn(y, 10);
    }
    assert DaysBefore(y, 7)
        == DaysBefore(y, 1) + DaysIn(y, 1) + DaysIn(y, 2) + DaysIn(y, 3) + DaysIn(y, 4) + DaysIn(y, 5) + DaysIn(y, 6)
    by {
      assert DaysBefore(y, 3) == DaysBefore(y, 2) + DaysIn(y, 2);
      assert DaysBefore(y, 5) == DaysBefore(y, 4) + DaysIn(y, 4);
    }
    LeapDays(y);
  }

  lemma LeapDays(y: int)
    ensures y / 4 - y / 100 + y / 400 - ((y - 1) / 4 - (y - 1) / 100 + (y - 1) / 400) == if IsLeap(y) then 1 else 0
  {
    Quotient(y, 4);
    Quotient(y, 100);
    Quotient(y, 400);
  }

  lemma Quotient(y: int, d: int)
    requires d in {4, 100, 400}
    ensures y / d - (y - 1) / d == if y % d == 0 then 1 else 0
  {
  }

  lemma NextDayMoves(s: Stamp)
    requires 1 <= s.month <= 12 && 1 <= s.day <= DaysIn(s.year, s.month)
    ensures
      var n := NextDay(s);
      && 1 <= n.month <= 12 && 1 <= n.day <= DaysIn(n.year, n.month)
      && DaysBefore(n.year, n.month) + n.day == DaysBefore(s.year, s.month) + s.day + 1
  {
    hide IsLeap;
    if s.month == 12 { YearLength(s.year); }
  }

  lemma PreviousDayMoves(s: Stamp)
    requires 1 <= s.month <= 12 && 1 <= s.day <= DaysIn(s.year, s.month)
    ensures
      var p := PreviousDay(s);
      && 1 <= p.month <= 12 && 1 <= p.day <= DaysIn(p.year, p.month)
      && DaysBefore(p.year, p.month) + p.day == DaysBefore(s.year, s.month) + s.day - 1
  {
    hide IsLeap;
    if s.month == 1 { YearLength(s.year - 1); }
  }

  lemma ClockMoves(s: Stamp, t: int)
    requires 0 <= t < 86400
    ensures
      var n := AtSecond(s, t);
      && 0 <= n.hour < 24 && 0 <= n.minute < 60 && 0 <= n.second < 60
      && 3600 * n.hour + 60 * n.minute + n.second == t
  {
  }

  /** Valid fields, but for the year. */
  predicate ValidFields(s: Stamp) {
    && 1 <= s.month <= 12 && 1 <= s.day <= DaysIn(s.year, s.month)
    && 0 <= s.hour < 24 && 0 <= s.minute < 60 && 0 <= s.second < 60 && 0 <= s.micro < 1000000
  }

  lemma ShiftKeepsInstant(s: Stamp, offset: int)
    requires ValidFields(s) && -86400 < offset < 86400
    ensures ValidFields(Shift(s, offset)) && Seconds(Shift(s, offset)) == Seconds(s) - offset
    ensures Shift(s, offset).micro == s.micro
  {
    hide IsLeap, DaysBefore, DaysIn;
    var second := 3600 * s.hour + 60 * s.minute + s.second - offset;
    NextDayMoves(s);
    PreviousDayMoves(s);
    var (day, rest) :=
      if second < 0 then (PreviousDay(s), second + 86400)
      else if second >= 86400 then (NextDay(s), second - 86400)
      else (s, second);
    ClockMoves(day, rest);
  }

  /** Conversion to UTC keeps the instant. */
  lemma UtcKeepsInstant(t: DateTime)
    requires ValidTime(t) && EnsureUtc(t).Some?
    ensures ValidStamp(EnsureUtc(t).value)
    ensures Instant(DateTime(EnsureUtc(t).value, Some(0))) == Instant(t)
  {
    hide Seconds, DaysIn, Shift;
    if t.offset.Some? { ShiftKeepsInstant(t.stamp, t.offset.value); }
  }

  // ------------------------------------------- the calendar counts its days

  lemma {:induction false} MonthsGrow(y: int, m: int, n: int)
    requires 1 <= m < n <= 12
    ensures DaysBefore(y, m) + DaysIn(y, m) <= DaysBefore(y, n)
    decreases n
  {
    if m < n - 1 { MonthsGrow(y, m, n - 1); }
  }

  lemma {:induction false} YearsGrow(y: int, z: int)
    requires y <= z
    ensures DaysBefore(y, 1) <= DaysBefore(z, 1)
    decreases z - y
  {
    if y < z {
      YearsGrow(y, z - 1);
      LeapDays(z - 1);
    }
  }

  /** A day of a year lies between its first and the first of the next. */
  lemma DayOfYear(y: int, m: int)
    requires 1 <= m <= 12
    ensures DaysBefore(y, 1) <= DaysBefore(y, m) && DaysBefore(y, m) + DaysIn(y, m) <= DaysBefore(y + 1, 1)
  {
    YearLength(y);
    if m > 1 { MonthsGrow(y, 1, m); }
    if m < 12 { MonthsGrow(y, m, 12); }
  }

  lemma DateDecides(s: Stamp, t: Stamp)
    requires ValidFields(s) && ValidFields(t)
    ensures s.year < t.year || (s.year == t.year && s.month < t.month) ==>
              DaysBefore(s.year, s.month) + s.day <= DaysBefore(t.year, t.month)
  {
    hide DaysBefore, DaysIn;
    if s.year < t.year {
      DayOfYear(s.year, s.month);
      DayOfYear(t.year, t.month);
      YearsGrow(s.year + 1, t.year);
    } else if s.year == t.year && s.month < t.month {
      MonthsGrow(s.year, s.month, t.month);
    }
  }

  /** Different fields are different times. */
  lemma FieldsDecide(s: Stamp, t: Stamp)
    requires ValidFields(s) && ValidFields(t) && Seconds(s) == Seconds(t) && s.micro == t.micro
    ensures s == t
  {
    hide DaysBefore, DaysIn;
    DateDecides(s, t);
    DateDecides(t, s);
    var p, q := DaysBefore(s.year, s.month) + s.day, DaysBefore(t.year, t.month) + t.day;
    var x, y := 3600 * s.hour + 60 * s.minute + s.second, 3600 * t.hour + 60 * t.minute + t.second;
    assert 0 <= x < 86400 && 0 <= y < 86400 && 86400 * (p - q) == y - x;
    assert p == q && x == y;
  }

  /** The supported years as a range of seconds. */
  lemma SupportedYears(s: Stamp)
    requires ValidFields(s)
    ensures 1 <= s.year <= 9999 <==> 0 <= Seconds(s) < 86400 * DaysBefore(10000, 1)
  {
    hide DaysIn;
    DayOfYear(s.year, s.month);
    assert DaysBefore(1, 1) == 0;
    if s.year < 1 { YearsGrow(s.year + 1, 1); } else { YearsGrow(1, s.year); }
    if s.year < 10000 { YearsGrow(s.year + 1, 10000); } else { YearsGrow(10000, s.year); }
  }

  /** Every day of the calendar has its date. */
  lemma {:induction false} DayExists(n: nat) returns (s: Stamp)
    requires n < DaysBefore(10000, 1)
    ensures ValidStamp(s) && s.hour == s.minute == s.second == s.micro == 0 && Seconds(s) == 86400 * n
  {
    hide DaysBefore, DaysIn;
    if n == 0 {
      s := Stamp(1, 1, 1, 0, 0, 0, 0);
      FirstDay();
    } else {
      var before := DayExists(n - 1);
      NextDayMoves(before);
      s := NextDay(before);
      SupportedYears(s);
    }
  }

  lemma FirstDay()
    ensures DaysBefore(1, 1) == 0 && DaysIn(1, 1) == 31
  {
  }

  /** Every instant of the years 1 to 9999 has its fields. */
  lemma InstantExists(t: int) returns (s: Stamp)
    requires 0 <= t < 1000000 * (86400 * DaysBefore(10000, 1))
    ensures ValidStamp(s) && Instant(DateTime(s, Some(0))) == t
  {
    hide DaysBefore, DaysIn;
    var day := DayExists(t / 1000000 / 86400);
    ClockMoves(day, t / 1000000 % 86400);
    s := AtSecond(day, t / 1000000 % 86400).(micro := t % 1000000);
  }

  // --------------------------------------------------------------- isoformat

  function Two(n: int): (s: string)
    requires 0 <= n < 100
    ensures |s| == 2
  {
    [Digit(n / 10), Digit(n % 10)]
  }

  /** Fields that fit their two or four digits, whether or not they are a date and a time. */
  predicate Printable(s: Stamp) {
    && 0 <= s.year < 10000 && 0 <= s.month < 100 && 0 <= s.day < 100
    && 0 <= s.hour < 100 && 0 <= s.minute < 100 && 0 <= s.second < 100 && 0 <= s.micro < 1000000
  }

  function Date(s: Stamp): string
    requires Printable(s)
  {
    Two(s.year / 100) + Two(s.year % 100) + "-" + Two(s.month) + "-" + Two(s.day)
  }

  function Time(s: Stamp): string
    requires Printable(s)
  {
    Two(s.hour) + ":" + Two(s.minute) + ":" + Two(s.second)
  }

  function Fraction(micro: int): string
    requires 0 <= micro < 1000000
  {
    if micro == 0 then "" else "." + Two(micro / 10000) + Two(micro / 100 % 100) + Two(micro % 100)
  }

  /** isoformat() of a datetime in UTC. */
  function IsoFormat(s: Stamp): string
    requires ValidStamp(s)
  {
    Date(s) + "T" + Time(s) + Fraction(s.micro) + "+00:00"
  }

  /** A datetime with an offset of `h` hours and `m` minutes, east of UTC or west of it. */
  function IsoText(s: Stamp, east: bool, h: int, m: int): string
    requires Printable(s) && 0 <= h < 100 && 0 <= m < 100
  {
    Date(s) + "T" + Time(s) + Fraction(s.micro) + OffsetText(east, h, m)
  }

  function OffsetText(east: bool, h: int, m: int): (s: string)
    requires 0 <= h < 100 && 0 <= m < 100
    ensures |s| == 6
  {
    [if east then '+' else '-'] + Two(h) + ":" + Two(m)
  }

  function DigitValue(c: char): int {
    c as int - '0' as int
  }

  predicate IsTwo(s: string, i: nat) {
    i + 2 <= |s| && '0' <= s[i] <= '9' && '0' <= s[i + 1] <= '9'
  }

  function ReadTwo(s: string, i: nat): int
    requires IsTwo(s, i)
  {
    10 * DigitValue(s[i]) + DigitValue(s[i + 1])
  }

  predicate IsAt(s: string, i: nat, c: char) {
    i < |s| && s[i] == c
  }

  /** YYYY-MM-DDTHH:MM:SS */
  predicate IsMoment(s: string) {
    && IsTwo(s, 0) && IsTwo(s, 2) && IsAt(s, 4, '-') && IsTwo(s, 5) && IsAt(s, 7, '-') && IsTwo(s, 8)
      && IsAt(s, 10, 'T')
    && IsTwo(s, 11) && IsAt(s, 13, ':') && IsTwo(s, 14) && IsAt(s, 16, ':') && IsTwo(s, 17)
  }

  /** What follows it: a fraction of six digits, or none, and an offset. */
  predicate IsFraction(s: string, i: nat) {
    IsAt(s, i, '.') && IsTwo(s, i + 1) && IsTwo(s, i + 3) && IsTwo(s, i + 5)
  }

  predicate IsOffset(s: string, i: nat) {
    (IsAt(s, i, '+') || IsAt(s, i, '-')) && IsTwo(s, i + 1) && IsAt(s, i + 3, ':') && IsTwo(s, i + 4) && |s| == i + 6
  }

  datatype Reading = Read(time: DateTime) | BadValue | OtherFormat

  /** fromisoformat() on the extended format with an offset; other formats are not part of this model. */
  function FromIsoFormat(s: string): Reading {
    var fraction := IsFraction(s, 19);
    var tail := if fraction then 26 else 19;
    if !IsMoment(s) || !IsOffset(s, tail) then OtherFormat else
      var micro := if fraction then 10000 * ReadTwo(s, 20) + 100 * ReadTwo(s, 22) + ReadTwo(s, 24) else 0;
      var stamp := Stamp(100 * ReadTwo(s, 0) + ReadTwo(s, 2), ReadTwo(s, 5), ReadTwo(s, 8), ReadTwo(s, 11),
                         ReadTwo(s, 14), ReadTwo(s, 17), micro);
      var minutes := 60 * ReadTwo(s, tail + 1) + ReadTwo(s, tail + 4);
      var t := DateTime(stamp, Some(60 * if s[tail] == '-' then -minutes else minutes));
      if ValidTime(t) && ReadTwo(s, tail + 4) < 60 then Read(t) else BadValue
  }

  lemma TwoRoundTrip(n: int, s: string, i: nat)
    requires 0 <= n < 100 && i + 2 <= |s| && s[i..i + 2] == Two(n)
    ensures IsTwo(s, i) && ReadTwo(s, i) == n
  {
    assert s[i] == s[i..i + 2][0] && s[i + 1] == s[i..i + 2][1];
  }

  /** The parts of a formatted moment are where the reader looks for them. */
  lemma MomentParts(s: Stamp)
    requires Printable(s)
    ensures
      var m := Date(s) + "T" + Time(s);
      && |m| == 19 && m[0..2] == Two(s.year / 100) && m[2..4] == Two(s.year % 100) && m[4] == '-'
        && m[5..7] == Two(s.month)
      && m[7] == '-' && m[8..10] == Two(s.day) && m[10] == 'T' && m[11..13] == Two(s.hour) && m[13] == ':'
      && m[14..16] == Two(s.minute) && m[16] == ':' && m[17..19] == Two(s.second)
  {
    hide Two;
  }

  lemma MomentReads(s: Stamp, text: string)
    requires Printable(s) && |text| >= 19 && text[..19] == Date(s) + "T" + Time(s)
    ensures IsMoment(text)
    ensures 100 * ReadTwo(text, 0) + ReadTwo(text, 2) == s.year && ReadTwo(text, 5) == s.month
      && ReadTwo(text, 8) == s.day
    ensures ReadTwo(text, 11) == s.hour && ReadTwo(text, 14) == s.minute && ReadTwo(text, 17) == s.second
  {
    hide Two, IsTwo, ReadTwo, Date, Time;
    MomentParts(s);
    PartOf(text, 0, s.year / 100);
    PartOf(text, 2, s.year % 100);
    PartOf(text, 5, s.month);
    PartOf(text, 8, s.day);
    PartOf(text, 11, s.hour);
    PartOf(text, 14, s.minute);
    PartOf(text, 17, s.second);
    assert text[4] == text[..19][4] && text[7] == text[..19][7] && text[10] == text[..19][10];
    assert text[13] == text[..19][13] && text[16] == text[..19][16];
  }

  lemma PartOf(text: string, i: nat, n: int)
    requires i + 2 <= 19 <= |text| && 0 <= n < 100 && text[..19][i..i + 2] == Two(n)
    ensures IsTwo(text, i) && ReadTwo(text, i) == n
  {
    assert text[..19][i..i + 2] == text[i..i + 2];
    TwoRoundTrip(n, text, i);
  }

  lemma OffsetReads(text: string, i: nat, east: bool, h: int, m: int)
    requires 0 <= h < 100 && 0 <= m < 100 && i <= |text| && text[i..] == OffsetText(east, h, m)
    ensures IsOffset(text, i) && text[i] == (if east then '+' else '-')
    ensures ReadTwo(text, i + 1) == h && ReadTwo(text, i + 4) == m
  {
    hide Two, IsTwo, ReadTwo;
    var rest := text[i..];
    assert rest[1..3] == Two(h) && rest[4..6] == Two(m);
    assert text[i] == rest[0] && text[i + 3] == rest[3];
    assert text[i + 1..i + 3] == rest[1..3] && text[i + 4..i + 6] == rest[4..6];
    TwoRoundTrip(h, text, i + 1);
    TwoRoundTrip(m, text, i + 4);
  }

  lemma SliceOfSlice(text: string, i: nat, k: nat)
    requires i + 7 <= |text| && k + 2 <= 7
    ensures text[i + k..i + k + 2] == text[i..i + 7][k..k + 2]
  {
    var part := text[i..i + 7];
    var x, y := text[i + k..i + k + 2], part[k..k + 2];
    assert x[0] == text[i + k] == part[k] == y[0];
    assert x[1] == text[i + k + 1] == part[k + 1] == y[1];
    assert |x| == |y| == 2;
    assert x == [x[0], x[1]] && y == [y[0], y[1]];
  }

  lemma FractionReads(micro: int, text: string, i: nat)
    requires 0 < micro < 1000000 && i + 7 <= |text| && text[i..i + 7] == Fraction(micro)
    ensures IsFraction(text, i)
    ensures 10000 * ReadTwo(text, i + 1) + 100 * ReadTwo(text, i + 3) + ReadTwo(text, i + 5) == micro
  {
    hide Two, IsTwo, ReadTwo;
    var f := text[i..i + 7];
    assert f[0] == '.' && f[1..3] == Two(micro / 10000);
    assert f[3..5] == Two(micro / 100 % 100) && f[5..7] == Two(micro % 100);
    assert text[i] == f[0];
    SliceOfSlice(text, i, 1);
    SliceOfSlice(text, i, 3);
    SliceOfSlice(text, i, 5);
    TwoRoundTrip(micro / 10000, text, i + 1);
    TwoRoundTrip(micro / 100 % 100, text, i + 3);
    TwoRoundTrip(micro % 100, text, i + 5);
  }

  lemma TailReads(micro: int, east: bool, h: int, m: int, text: string)
    requires 0 <= micro < 1000000 && 0 <= h < 100 && 0 <= m < 100
    requires |text| >= 19 && text[19..] == Fraction(micro) + OffsetText(east, h, m)
    ensures IsFraction(text, 19) <==> micro != 0
    ensures micro != 0 ==> 10000 * ReadTwo(text, 20) + 100 * ReadTwo(text, 22) + ReadTwo(text, 24) == micro
    ensures
      var tail := if micro != 0 then 26 else 19;
      && IsOffset(text, tail) && text[tail] == (if east then '+' else '-')
      && ReadTwo(text, tail + 1) == h && ReadTwo(text, tail + 4) == m
  {
    hide IsTwo, ReadTwo, Two, OffsetText;
    var rest := text[19..];
    if micro == 0 {
      assert rest == OffsetText(east, h, m);
      OffsetReads(text, 19, east, h, m);
    } else {
      assert text[19..26] == rest[..7] == Fraction(micro);
      FractionReads(micro, text, 19);
      assert text[26..] == rest[7..] == OffsetText(east, h, m);
      OffsetReads(text, 26, east, h, m);
    }
  }

  /** A text of the format is read field by field, and refused exactly when they are no date, time and offset. */
  lemma IsoReads(s: Stamp, east: bool, h: int, m: int)
    requires Printable(s) && 0 <= h < 100 && 0 <= m < 100
    ensures FromIsoFormat(IsoText(s, east, h, m))
         == if ValidStamp(s) && h < 24 && m < 60 then
              Read(DateTime(s, Some(if east then 3600 * h + 60 * m else -3600 * h - 60 * m)))
            else BadValue
  {
    hide Two, IsTwo, ReadTwo, Date, Time, Fraction, DaysIn, OffsetText, IsMoment, IsOffset, IsFraction;
    var text, moment := IsoText(s, east, h, m), Date(s) + "T" + Time(s);
    MomentParts(s);
    assert text[..19] == moment && text[19..] == Fraction(s.micro) + OffsetText(east, h, m) by {
      assert text == moment + (Fraction(s.micro) + OffsetText(east, h, m));
    }
    MomentReads(s, text);
    TailReads(s.micro, east, h, m, text);
  }

  lemma IsoRoundTrip(s: Stamp)
    requires ValidStamp(s)
    ensures FromIsoFormat(IsoFormat(s)) == Read(DateTime(s, Some(0)))
  {
    hide Date, Time, Fraction, FromIsoFormat;
    assert OffsetText(true, 0, 0) == "+00:00";
    IsoReads(s, true, 0, 0);
  }

  // ----------------------------------------------------------------- cursors

  datatype Cursor = Cursor(createdAt: DateTime, id: string)

  function ByteAt(s: string, i: nat): Byte
    requires i < |s| && forall c <- s :: c as int < 128
  {
    assert s[i] in s;
    s[i] as int
  }

  /** The bytes of a text; only ASCII is modelled, as json.dumps writes nothing else. */
  function ToBytes(s: string): seq<Byte>
    requires forall c <- s :: c as int < 128
  {
    seq(|s|, i requires 0 <= i < |s| => ByteAt(s, i))
  }

  function ToText(bytes: seq<Byte>): string
    requires forall b <- bytes :: b < 128
  {
    seq(|bytes|, i requires 0 <= i < |bytes| => assert bytes[i] in bytes; bytes[i] as char)
  }

  /** The canonical document with two fields. */
  function Framed(createdAt: string, id: string): string {
    "{\"created_at\":" + (Quote(createdAt) + (",\"id\":" + (Quote(id) + "}")))
  }

  function Document(s: Stamp, id: string): string
    requires ValidStamp(s)
  {
    Framed(IsoFormat(s), id)
  }

  lemma FramedIsAscii(createdAt: string, id: string)
    ensures forall c <- Framed(createdAt, id) :: c as int < 128
  {
    hide EscapeRest;
    EscapedIsAscii(createdAt);
    EscapedIsAscii(id);
  }

  /** None is the overflow in the conversion to UTC. */
  function EncodeCursor(c: Cursor): Option<string>
    requires ValidTime(c.createdAt)
  {
    match EnsureUtc(c.createdAt)
    case None => None
    case Some(s) =>
      UtcKeepsInstant(c.createdAt);
      FramedIsAscii(IsoFormat(s), c.id);
      Some(Base64.Encode(ToBytes(Document(s, c.id))))
  }

  /**
   * Rejected is the error the API reports, Overflowed an exception it does not
   * catch; OtherDocument is a text outside the shapes modelled here.
   */
  datatype Decoded = Decoded(createdAt: Stamp, id: string) | Rejected | Overflowed | OtherDocument

  function After(s: string, prefix: string): Option<string> {
    if prefix <= s then Some(s[|prefix|..]) else None
  }

  /** The two fields of a canonical document. */
  function Fields(s: string): Option<(string, string)> {
    match After(s, "{\"created_at\":")
    case None => None
    case Some(a) =>
      match Unquote(a)
      case None => None
      case Some((createdAt, b)) =>
        match After(b, ",\"id\":")
        case None => None
        case Some(c) =>
          match Unquote(c)
          case None => None
          case Some((id, d)) => if d == "}" then Some((createdAt, id)) else None
  }

  function DecodeCursor(text: string): Decoded {
    match Base64.Decode(text)
    case None => Rejected
    case Some(bytes) =>
      if exists b <- bytes :: b >= 128 then OtherDocument else
        match Fields(ToText(bytes))
        case None => OtherDocument
        case Some((createdAt, id)) =>
          if id == "" then Rejected else
            match FromIsoFormat(createdAt)
            case OtherFormat => OtherDocument
            case BadValue => Rejected
            case Read(t) =>
              match EnsureUtc(t)
              case None => Overflowed
              case Some(s) => Decoded(s, id)
  }

  lemma BytesRoundTrip(s: string)
    requires forall c <- s :: c as int < 128
    ensures (forall b <- ToBytes(s) :: b < 128) && ToText(ToBytes(s)) == s
  {
    forall b <- ToBytes(s) ensures b < 128 {
      var i :| 0 <= i < |s| && ToBytes(s)[i] == b;
      assert s[i] in s;
    }
  }

  lemma FieldsOfFramed(createdAt: string, id: string)
    ensures Fields(Framed(createdAt, id)) == Some((createdAt, id))
  {
    hide Quote, Unquote;
    var tail := ",\"id\":" + (Quote(id) + "}");
    AfterPrefix("{\"created_at\":", Quote(createdAt) + tail);
    UnquoteQuoted(createdAt, tail);
    AfterPrefix(",\"id\":", Quote(id) + "}");
    UnquoteQuoted(id, "}");
  }

  lemma AfterPrefix(prefix: string, rest: string)
    ensures After(prefix + rest, prefix) == Some(rest)
  {
  }

  /** Decoding an encoded cursor gives its id and its instant, in UTC. */
  lemma CursorRoundTrip(c: Cursor)
    requires ValidTime(c.createdAt) && c.id != "" && EncodeCursor(c).Some?
    ensures
      var d := DecodeCursor(EncodeCursor(c).value);
      && d.Decoded? && d.id == c.id
      && ValidStamp(d.createdAt) && Instant(DateTime(d.createdAt, Some(0))) == Instant(c.createdAt)
  {
    hide Fields, Framed, FromIsoFormat, IsoFormat, Base64.Encode, Base64.Decode, Instant, ToText, ToBytes, ValidStamp;
    UtcKeepsInstant(c.createdAt);
    var s := EnsureUtc(c.createdAt).value;
    FramedIsAscii(IsoFormat(s), c.id);
    var bytes := ToBytes(Document(s, c.id));
    Base64.RoundTrip(bytes);
    BytesRoundTrip(Document(s, c.id));
    FieldsOfFramed(IsoFormat(s), c.id);
    IsoRoundTrip(s);
    AlreadyUtc(s);
  }

  /**
   * What decoding makes of a canonical document, by its two fields: a missing
   * id and fields that are no time are rejected; a time is converted to UTC,
   * whatever its offset, or overflows.
   */
  lemma DocumentDecides(s: Stamp, east: bool, h: int, m: int, id: string)
    requires Printable(s) && 0 <= h < 100 && 0 <= m < 100
    ensures forall c <- Framed(IsoText(s, east, h, m), id) :: c as int < 128
    ensures
      var d := DecodeCursor(Base64.Encode(ToBytes(Framed(IsoText(s, east, h, m), id))));
      var t := DateTime(s, Some(if east then 3600 * h + 60 * m else -3600 * h - 60 * m));
      && (d == Rejected <==> id == "" || !ValidStamp(s) || h >= 24 || m >= 60)
      && (d != Rejected ==>
            if 0 <= Instant(t) < 1000000 * (86400 * DaysBefore(10000, 1))
            then d.Decoded? && d.id == id && ValidStamp(d.createdAt)
                 && Instant(DateTime(d.createdAt, Some(0))) == Instant(t)
            else d == Overflowed)
  {
    hide Fields, Framed, FromIsoFormat, IsoText, Base64.Encode, Base64.Decode, Instant, ToText, ToBytes, EnsureUtc,
         DaysBefore, DaysIn;
    var createdAt := IsoText(s, east, h, m);
    FramedIsAscii(createdAt, id);
    var bytes := ToBytes(Framed(createdAt, id));
    Base64.RoundTrip(bytes);
    BytesRoundTrip(Framed(createdAt, id));
    FieldsOfFramed(createdAt, id);
    IsoReads(s, east, h, m);
    if ValidStamp(s) && h < 24 && m < 60 {
      var t := DateTime(s, Some(if east then 3600 * h + 60 * m else -3600 * h - 60 * m));
      EncodesWithinTheCalendar(Cursor(t, id));
      if EnsureUtc(t).Some? { UtcKeepsInstant(t); }
    }
  }

  /** A text that is not base64 is rejected. */
  lemma ForeignTextsAreRejected(text: string)
    requires !Base64.WellPadded(text)
    ensures DecodeCursor(text) == Rejected
  {
    hide Base64.Decode, Base64.WellPadded;
    Base64.DecodesIff(text);
  }

  /** An instant as isoformat() writes it, with six digits of a second. */
  lemma IsoExample()
    ensures IsoFormat(Stamp(2026, 6, 12, 10, 5, 9, 70800)) == "2026-06-12T10:05:09.070800+00:00"
    ensures IsoFormat(Stamp(2026, 6, 12, 10, 5, 9, 0)) == "2026-06-12T10:05:09+00:00"
  {
    hide Date, Time, Fraction;
    DateExample(70800);
    DateExample(0);
    TimeExample(70800);
    TimeExample(0);
    FractionExample();
  }

  lemma DateExample(micro: int)
    requires 0 <= micro < 1000000
    ensures Date(Stamp(2026, 6, 12, 10, 5, 9, micro)) == "2026-06-12"
  {
    assert Two(20) == "20" && Two(26) == "26" && Two(6) == "06" && Two(12) == "12";
  }

  lemma TimeExample(micro: int)
    requires 0 <= micro < 1000000
    ensures Time(Stamp(2026, 6, 12, 10, 5, 9, micro)) == "10:05:09"
  {
    assert Two(10) == "10" && Two(5) == "05" && Two(9) == "09";
  }

  lemma FractionExample()
    ensures Fraction(70800) == ".070800" && Fraction(0) == ""
  {
    assert Two(7) == "07" && Two(8) == "08" && Two(0) == "00";
  }

  lemma ValidIsPrintable(s: Stamp)
    requires ValidStamp(s)
    ensures Printable(s)
  {
  }

  lemma IsoIsPlain(s: Stamp)
    requires ValidStamp(s)
    ensures forall c <- IsoFormat(s) :: IsPlain(c)
  {
    hide Date, Time, Fraction, ValidStamp, IsPlain;
    ValidIsPrintable(s);
    PartsArePlain(s);
    assert forall c <- "+00:00" :: IsPlain(c) by { MarksArePlain(); }
    assert IsPlain('T') by { MarksArePlain(); }
  }

  lemma MarksArePlain()
    ensures IsPlain('-') && IsPlain('T') && IsPlain(':') && IsPlain('.') && IsPlain('+') && IsPlain('0')
  {
  }

  lemma PartsArePlain(s: Stamp)
    requires Printable(s)
    ensures forall c <- Date(s) :: IsPlain(c)
    ensures forall c <- Time(s) :: IsPlain(c)
    ensures forall c <- Fraction(s.micro) :: IsPlain(c)
  {
    hide Two, IsPlain;
    MarksArePlain();
    forall n, c | 0 <= n < 100 && c in Two(n) ensures IsPlain(c) {
      TwoIsPlain(n);
    }
  }

  lemma TwoIsPlain(n: int)
    requires 0 <= n < 100
    ensures forall c <- Two(n) :: IsPlain(c)
  {
  }

  /** The document as it stands, when its id needs no escapes. */
  lemma DocumentTemplate(s: Stamp, id: string)
    requires ValidStamp(s) && forall c <- id :: IsPlain(c)
    ensures Document(s, id)
         == "{\"created_at\":" + ("\"" + IsoFormat(s) + "\"" + (",\"id\":" + ("\"" + id + "\"" + "}")))
  {
    hide Quote, IsoFormat;
    IsoIsPlain(s);
    PlainQuote(IsoFormat(s));
    PlainQuote(id);
  }

  lemma ClockReads(hour: int, minute: int, second: int)
    requires 0 <= hour < 24 && 0 <= minute < 60 && 0 <= second < 60
    ensures
      var t := 3600 * hour + 60 * minute + second;
      0 <= t < 86400 && t / 3600 == hour && t / 60 % 60 == minute && t % 60 == second
  {
    var t := 3600 * hour + 60 * minute + second;
    var minutes := 60 * hour + minute;
    assert t == 60 * minutes + second;
    assert t / 60 == minutes && minutes / 60 == hour;
    assert t / 3600 == minutes / 60;
  }

  lemma AlreadyUtc(s: Stamp)
    requires ValidStamp(s)
    ensures EnsureUtc(DateTime(s, Some(0))) == Some(s)
  {
    hide NextDay, PreviousDay, DaysIn;
    ClockReads(s.hour, s.minute, s.second);
  }

  /** Encoding fails exactly for instants outside the years 1 to 9999. */
  lemma EncodesWithinTheCalendar(c: Cursor)
    requires ValidTime(c.createdAt)
    ensures EncodeCursor(c).Some? <==> 0 <= Instant(c.createdAt) < 1000000 * (86400 * DaysBefore(10000, 1))
  {
    hide DaysBefore, Seconds, Shift, DaysIn;
    var t := c.createdAt;
    SupportedYears(t.stamp);
    if t.offset.Some? {
      ShiftKeepsInstant(t.stamp, t.offset.value);
      SupportedYears(Shift(t.stamp, t.offset.value));
    }
  }

  /**
   * Decoding a canonical document with an id raises an exception that is not
   * turned into the error of the API exactly when its time, which may carry
   * any offset, falls outside the years 1 to 9999 in UTC.
   */
  lemma OverflowsOutsideTheCalendar(text: string, createdAt: string, id: string, t: DateTime)
    requires Base64.Decode(text).Some? && forall b <- Base64.Decode(text).value :: b < 128
    requires Fields(ToText(Base64.Decode(text).value)) == Some((createdAt, id)) && id != ""
    requires FromIsoFormat(createdAt) == Read(t)
    ensures ValidTime(t)
    ensures DecodeCursor(text) == Overflowed <==> !(0 <= Instant(t) < 1000000 * (86400 * DaysBefore(10000, 1)))
  {
    hide Fields, Base64.Decode, Instant, DaysBefore, ValidTime, ToText, EnsureUtc, IsMoment, IsOffset, IsFraction,
         ReadTwo;
    EncodesWithinTheCalendar(Cursor(t, id));
  }

  /** Midnight of the first of January of the year 1. */
  const MIDNIGHT := Stamp(1, 1, 1, 0, 0, 0, 0)

  /** 0001-01-01T00:00:00+01:00 */
  const FIRST_HOUR := IsoText(MIDNIGHT, true, 1, 0)

  lemma FirstHourReads()
    ensures FromIsoFormat(FIRST_HOUR) == Read(DateTime(MIDNIGHT, Some(3600)))
  {
    hide FromIsoFormat, IsoText, DaysIn;
    JanuaryFirst();
    IsoReads(MIDNIGHT, true, 1, 0);
  }

  lemma JanuaryFirst()
    ensures ValidStamp(MIDNIGHT)
  {
  }

  /** One such text: that midnight, an hour east of UTC. */
  lemma FirstHourOverflows() returns (text: string)
    ensures DecodeCursor(text) == Overflowed
  {
    hide Fields, Base64.Encode, Base64.Decode, FromIsoFormat, Quote, ToText, ToBytes, EnsureUtc;
    var id := "A";
    var document := Framed(FIRST_HOUR, id);
    FramedIsAscii(FIRST_HOUR, id);
    text := Base64.Encode(ToBytes(document));
    Base64.RoundTrip(ToBytes(document));
    BytesRoundTrip(document);
    FieldsOfFramed(FIRST_HOUR, id);
    FirstHourReads();
    var t := DateTime(MIDNIGHT, Some(3600));
    assert Instant(t) < 0 by { assert DaysBefore(1, 1) == 0; }
    OverflowsOutsideTheCalendar(text, FIRST_HOUR, id, t);
  }

  /** Two cursors have the same text exactly when they have the same instant and id. */
  lemma TextsIdentifyCursors(c: Cursor, d: Cursor)
    requires ValidTime(c.createdAt) && ValidTime(d.createdAt) && c.id != "" && d.id != ""
    requires EncodeCursor(c).Some? && EncodeCursor(d).Some?
    ensures EncodeCursor(c) == EncodeCursor(d) <==> Instant(c.createdAt) == Instant(d.createdAt) && c.id == d.id
  {
    hide DecodeCursor, DaysBefore, Seconds, DaysIn, EnsureUtc, Framed;
    CursorRoundTrip(c);
    CursorRoundTrip(d);
    UtcKeepsInstant(c.createdAt);
    UtcKeepsInstant(d.createdAt);
    if Instant(c.createdAt) == Instant(d.createdAt) {
      FieldsDecide(EnsureUtc(c.createdAt).value, EnsureUtc(d.createdAt).value);
    }
  }
}
