/** The proleptic Gregorian calendar in UTC, and the digest of an instant. */
module Calendar {

  /** Nanoseconds since 1970-01-01T00:00:00Z, as the time package counts. */
  type Instant = int

  const MINUTE: Instant := 60_000_000_000
  const MINUTES_PER_DAY := 1440

  datatype TimestampDigest = TimestampDigest(minute: int, hour: int, date: int, month: int, dow: int)

  datatype Date = Date(year: int, month: int, day: int)

  predicate IsLeap(y: int) {
    y % 4 == 0 && (y % 100 != 0 || y % 400 == 0)
  }

  function YearLength(y: int): int {
    if IsLeap(y) then 366 else 365
  }

  function MonthLength(y: int, m: int): int {
    if m == 2 then (if IsLeap(y) then 29 else 28)
    else if m == 4 || m == 6 || m == 9 || m == 11 then 30
    else 31
  }

  predicate IsDate(d: Date) {
    1 <= d.month <= 12 && 1 <= d.day <= MonthLength(d.year, d.month)
  }

  function DayAfter(d: Date): Date {
    if d.day < MonthLength(d.year, d.month) then d.(day := d.day + 1)
    else if d.month < 12 then Date(d.year, d.month + 1, 1)
    else Date(d.year + 1, 1, 1)
  }

  function DayBefore(d: Date): Date {
    if d.day > 1 then d.(day := d.day - 1)
    else if d.month > 1 then Date(d.year, d.month - 1, MonthLength(d.year, d.month - 1))
    else Date(d.year - 1, 12, 31)
  }

  /** The date of a day counted from 1970-01-01, before and after it alike. */
  function DateOf(day: int): Date
    decreases if day < 0 then -day else day
  {
    if day == 0 then Date(1970, 1, 1) else if day > 0 then DayAfter(DateOf(day - 1)) else DayBefore(DateOf(day + 1))
  }

  /** Sunday is 0; 1970-01-01 was a Thursday. */
  function Weekday(day: int): int {
    (day + 4) % 7
  }

  // From a date to its day

  /** Days from 1970-01-01 to January 1st of a year. */
  function YearStart(y: int): int
    decreases if y < 1970 then 1970 - y else y - 1970
  {
    if y == 1970 then 0 else if y > 1970 then YearStart(y - 1) + YearLength(y - 1) else YearStart(y + 1) - YearLength(y)
  }

  lemma YearStartStep(y: int)
    ensures YearStart(y + 1) == YearStart(y) + YearLength(y)
  {}

  const MONTH_STARTS: seq<int> := [0, 31, 59, 90, 120, 151, 181, 212, 243, 273, 304, 334, 365]

  /** Days from January 1st to the first of a month; month 13 is the next January. */
  function MonthStart(y: int, m: int): int
    requires 1 <= m <= 13
  {
    MONTH_STARTS[m - 1] + (if m > 2 && IsLeap(y) then 1 else 0)
  }

  lemma MonthStartStep(y: int, m: int)
    requires 1 <= m <= 12
    ensures MonthStart(y, m + 1) == MonthStart(y, m) + MonthLength(y, m)
  {}

  /** Days from 1970-01-01 to a date. */
  function DayNumber(d: Date): int
    requires 1 <= d.month <= 12
  {
    YearStart(d.year) + MonthStart(d.year, d.month) + d.day - 1
  }

  lemma DayAfterIsNext(d: Date)
    requires IsDate(d)
    ensures IsDate(DayAfter(d)) && DayNumber(DayAfter(d)) == DayNumber(d) + 1
  {
    MonthStartStep(d.year, d.month);
    YearStartStep(d.year);
  }

  lemma DayBeforeIsPrevious(d: Date)
    requires IsDate(d)
    ensures IsDate(DayBefore(d)) && DayNumber(DayBefore(d)) == DayNumber(d) - 1
  {
    if d.month > 1 { MonthStartStep(d.year, d.month - 1); }
    MonthStartStep(d.year - 1, 12);
    YearStartStep(d.year - 1);
  }

  /** Counting on from the epoch day by day agrees with the closed count of days. */
  lemma {:induction false} DateOfDay(day: int)
    ensures IsDate(DateOf(day)) && DayNumber(DateOf(day)) == day
    decreases if day < 0 then -day else day
  {
    if day > 0 {
      DateOfDay(day - 1);
      DayAfterIsNext(DateOf(day - 1));
    } else if day < 0 {
      DateOfDay(day + 1);
      DayBeforeIsPrevious(DateOf(day + 1));
    }
  }

  lemma {:induction false} YearStartMonotone(a: int, b: int)
    requires a <= b
    ensures YearStart(a) + 365 * (b - a) <= YearStart(b)
    decreases b - a
  {
    if a < b {
      YearStartMonotone(a, b - 1);
      YearStartStep(b - 1);
    }
  }

  lemma {:induction false} MonthStartMonotone(y: int, a: int, b: int)
    requires 1 <= a <= b <= 13
    ensures MonthStart(y, a) <= MonthStart(y, b)
    decreases b - a
  {
    if a < b {
      MonthStartStep(y, b - 1);
      MonthStartMonotone(y, a, b - 1);
    }
  }

  lemma DayInYear(d: Date)
    requires IsDate(d)
    ensures YearStart(d.year) <= DayNumber(d) < YearStart(d.year + 1)
  {}

  lemma YearsInOrder(d: Date, e: Date)
    requires IsDate(d) && IsDate(e) && DayNumber(d) <= DayNumber(e)
    ensures d.year <= e.year
  {
    DayInYear(d);
    DayInYear(e);
    if e.year < d.year { YearStartMonotone(e.year + 1, d.year); }
  }

  lemma SameDay(d: Date, e: Date)
    requires IsDate(d) && IsDate(e) && DayNumber(d) == DayNumber(e)
    ensures d == e
  {
    YearsInOrder(d, e);
    YearsInOrder(e, d);
    MonthStartStep(d.year, d.month);
    MonthStartStep(d.year, e.month);
    if d.month < e.month { MonthStartMonotone(d.year, d.month + 1, e.month); }
    if e.month < d.month { MonthStartMonotone(d.year, e.month + 1, d.month); }
  }

  /** DateOf is the only way back: the calendar has no day twice. */
  lemma DateIsUnique(d: Date)
    requires IsDate(d)
    ensures DateOf(DayNumber(d)) == d
  {
    DateOfDay(DayNumber(d));
    SameDay(DateOf(DayNumber(d)), d);
  }

  // Digests

  function MinuteOf(t: Instant): int {
    t / MINUTE
  }

  /** The digest of every instant in a minute, counted from the epoch. */
  function DigestOfMinute(m: int): TimestampDigest {
    var day := m / MINUTES_PER_DAY;
    var d := DateOf(day);
    TimestampDigest(m % 60, m % MINUTES_PER_DAY / 60, d.day, d.month, Weekday(day))
  }

  function DigestTimestamp(t: Instant): TimestampDigest {
    DigestOfMinute(MinuteOf(t))
  }

  /** The ranges every digest lies in, and the matchers are judged on. */
  predicate ValidDigest(d: TimestampDigest) {
    0 <= d.minute <= 59 && 0 <= d.hour <= 23 && 1 <= d.date <= 31 && 1 <= d.month <= 12 && 0 <= d.dow <= 6
  }

  lemma DigestsAreValid(t: Instant)
    ensures ValidDigest(DigestTimestamp(t))
  {
    var m := MinuteOf(t);
    assert 0 <= m % MINUTES_PER_DAY < MINUTES_PER_DAY;
    DateOfDay(m / MINUTES_PER_DAY);
  }

  // The calendar and the clock, in closed form

  lemma By4(y: int)
    ensures y / 4 == (y - 1) / 4 + (if y % 4 == 0 then 1 else 0)
  {}

  lemma By100(y: int)
    ensures y / 100 == (y - 1) / 100 + (if y % 100 == 0 then 1 else 0)
    ensures y % 100 == 0 ==> y % 4 == 0
  {
    if y % 100 == 0 { assert y == 4 * (25 * (y / 100)); }
  }

  lemma By400(y: int)
    ensures y / 400 == (y - 1) / 400 + (if y % 400 == 0 then 1 else 0)
    ensures y % 400 == 0 ==> y % 100 == 0
  {
    if y % 400 == 0 { assert y == 100 * (4 * (y / 400)); }
  }

  lemma LeapStep(y: int)
    ensures y / 4 - y / 100 + y / 400 ==
      (y - 1) / 4 - (y - 1) / 100 + (y - 1) / 400 + YearLength(y) - 365
  {
    By4(y);
    By100(y);
    By400(y);
  }

  /** 365 days a year, and the Gregorian leap days before it; 477 of them come before 1970. */
  lemma {:induction false} YearStartClosed(y: int)
    ensures YearStart(y) == 365 * (y - 1970) + (y - 1) / 4 - (y - 1) / 100 + (y - 1) / 400 - 477
    decreases if y < 1970 then 1970 - y else y - 1970
  {
    if y > 1970 {
      YearStartClosed(y - 1);
      LeapStep(y - 1);
    } else if y < 1970 {
      YearStartClosed(y + 1);
      LeapStep(y);
    }
  }

  lemma MonthStartClosed(y: int, m: int)
    requires 1 <= m <= 12
    ensures MonthStart(y, m) == (367 * m - 362) / 12
      - (if m <= 2 then 0 else if y % 400 == 0 || (y % 4 == 0 && y % 100 != 0) then 1 else 2)
  {
    By100(y);
    By400(y);
    assert MONTH_STARTS[m - 1] == (367 * m - 362) / 12 - (if m <= 2 then 0 else 2);
  }

  /** The day number of a date by the usual formula. */
  lemma DayNumberClosed(d: Date)
    requires IsDate(d)
    ensures DayNumber(d) ==
      365 * (d.year - 1970) + (d.year - 1) / 4 - (d.year - 1) / 100 + (d.year - 1) / 400 - 477
      + (367 * d.month - 362) / 12 + d.day - 1
      - (if d.month <= 2 then 0 else if d.year % 400 == 0 || (d.year % 4 == 0 && d.year % 100 != 0) then 1 else 2)
  {
    YearStartClosed(d.year);
    MonthStartClosed(d.year, d.month);
  }

  /** 1970-01-01 was a Thursday, and the weekdays follow each other before and after it. */
  lemma WeekdaysFollow(day: int)
    ensures Weekday(0) == 4 && Weekday(day + 1) == if Weekday(day) == 6 then 0 else Weekday(day) + 1
  {}

  lemma TimeParts(day: int, hour: int, minute: int)
    requires 0 <= hour <= 23 && 0 <= minute <= 59
    ensures var m := 1440 * day + 60 * hour + minute;
      m / MINUTES_PER_DAY == day && m % 60 == minute && m % MINUTES_PER_DAY / 60 == hour
  {
    var m := 1440 * day + 60 * hour + minute;
    MinuteParts(m);
    assert m == 60 * (24 * day + hour) + minute;
  }

  /** The digest at a date and time of day, in every second of the minute. */
  lemma DigestOfCalendarTime(d: Date, hour: int, minute: int, t: Instant)
    requires IsDate(d) && 0 <= hour <= 23 && 0 <= minute <= 59
    requires 0 <= t - 60_000_000_000 * (1440 * DayNumber(d) + 60 * hour + minute) < 60_000_000_000
    ensures DigestTimestamp(t) == TimestampDigest(minute, hour, d.day, d.month, Weekday(DayNumber(d)))
  {
    assert MinuteOf(t) == 1440 * DayNumber(d) + 60 * hour + minute;
    TimeParts(DayNumber(d), hour, minute);
    DateIsUnique(d);
  }

  /** Every instant lies in the minute its digest tells, of some year. */
  lemma DigestIsCalendarTime(t: Instant) returns (y: int)
    ensures var g := DigestTimestamp(t); var d := Date(y, g.month, g.date);
      && IsDate(d) && 0 <= g.hour <= 23 && 0 <= g.minute <= 59 && g.dow == Weekday(DayNumber(d))
      && 0 <= t - 60_000_000_000 * (1440 * DayNumber(d) + 60 * g.hour + g.minute) < 60_000_000_000
  {
    var m := MinuteOf(t);
    DigestsAreValid(t);
    DateOfDay(m / MINUTES_PER_DAY);
    MinuteParts(m);
    y := DateOf(m / MINUTES_PER_DAY).year;
  }

  // The digest has no year

  lemma FourthBefore(y: int)
    ensures (y + 4) / 4 == (y + 3) / 4 + (if y % 4 == 0 then 1 else 0)
  {}

  /** Leap days in the k years from y. */
  function LeapDays(y: int, k: nat): (n: nat)
    ensures n <= (y + k + 3) / 4 - (y + 3) / 4
  {
    if k == 0 then 0
    else
      FourthBefore(y + k - 1);
      LeapDays(y, k - 1) + (if IsLeap(y + k - 1) then 1 else 0)
  }

  lemma {:induction false} YearsApart(y: int, k: nat)
    ensures YearStart(y + k) == YearStart(y) + 365 * k + LeapDays(y, k)
  {
    if k > 0 {
      YearsApart(y, k - 1);
      YearStartStep(y + k - 1);
    }
  }

  lemma AfterFebruary(y: int, m: int)
    requires 3 <= m <= 12
    ensures YearStart(y) + MonthStart(y, m) == YearStart(y + 1) - 365 + MONTH_STARTS[m - 1]
  {}

  /** The same month and day k years later: the leap days in between are those of k years, from this or the next one. */
  lemma SameDateLater(d: Date, e: Date) returns (first: int)
    requires IsDate(d) && IsDate(e) && d.month == e.month && d.day == e.day && d.year <= e.year
    ensures DayNumber(e) - DayNumber(d) == 365 * (e.year - d.year) + LeapDays(first, e.year - d.year)
  {
    if d.month <= 2 {
      first := d.year;
    } else {
      first := d.year + 1;
      AfterFebruary(d.year, d.month);
      AfterFebruary(e.year, e.month);
    }
    YearsApart(first, e.year - d.year);
  }

  const ALIAS_DAYS := 1827

  lemma WholeWeeks(first: int, k: nat)
    requires (365 * k + LeapDays(first, k)) % 7 == 0 && 365 * k + LeapDays(first, k) < ALIAS_DAYS
    ensures k == 0
  {}

  /** Dates alike that are whole weeks apart are at least 5 years with 2 leap days apart. */
  lemma WeekdayTellsYear(d: Date, e: Date, days: int)
    requires IsDate(d) && IsDate(e) && d.month == e.month && d.day == e.day
    requires 0 <= days == DayNumber(e) - DayNumber(d) < ALIAS_DAYS && days % 7 == 0
    ensures d == e
  {
    YearsInOrder(d, e);
    var first := SameDateLater(d, e);
    WholeWeeks(first, e.year - d.year);
  }

  lemma MinuteParts(m: int)
    ensures m == MINUTES_PER_DAY * (m / MINUTES_PER_DAY) + 60 * (m % MINUTES_PER_DAY / 60) + m % 60
    ensures 0 <= 60 * (m % MINUTES_PER_DAY / 60) + m % 60 < MINUTES_PER_DAY
  {
    var x := m % MINUTES_PER_DAY;
    assert m == 60 * (24 * (m / MINUTES_PER_DAY) + x / 60) + x % 60;
  }

  lemma SameTimeOfDay(m: int, n: int)
    requires m % 60 == n % 60 && m % MINUTES_PER_DAY / 60 == n % MINUTES_PER_DAY / 60
    ensures n - m == MINUTES_PER_DAY * (n / MINUTES_PER_DAY - m / MINUTES_PER_DAY)
  {
    MinuteParts(m);
    MinuteParts(n);
  }

  lemma SameWeekday(a: int, b: int)
    requires Weekday(a) == Weekday(b)
    ensures (b - a) % 7 == 0
  {}

  /** Two minutes fewer than 1827 days apart with the same digest are the same minute. */
  lemma DigestTellsMinute(m: int, n: int)
    requires m <= n < m + ALIAS_DAYS * MINUTES_PER_DAY && DigestOfMinute(m) == DigestOfMinute(n)
    ensures m == n
  {
    SameTimeOfDay(m, n);
    var a, b := m / MINUTES_PER_DAY, n / MINUTES_PER_DAY;
    SameWeekday(a, b);
    DateOfDay(a);
    DateOfDay(b);
    WeekdayTellsYear(DateOf(a), DateOf(b), b - a);
  }

  lemma DigestOfMidnight(d: Date)
    requires IsDate(d)
    ensures DigestOfMinute(DayNumber(d) * MINUTES_PER_DAY)
      == TimestampDigest(0, 0, d.day, d.month, Weekday(DayNumber(d)))
  {
    DateIsUnique(d);
    Midnight(DayNumber(d));
  }

  lemma Midnight(day: int)
    ensures var m := day * MINUTES_PER_DAY; m / MINUTES_PER_DAY == day && m % MINUTES_PER_DAY == 0 && m % 60 == 0
  {}

  lemma TwoLeapDays(y: int)
    requires IsLeap(y) && IsLeap(y + 4)
    ensures LeapDays(y, 5) == 2
  {
    assert LeapDays(y, 1) == 1;
    assert LeapDays(y, 2) == 1;
    assert LeapDays(y, 3) == 1;
    assert LeapDays(y, 4) == 1;
  }

  lemma FiveYearsOn(d: Date, e: Date)
    requires IsDate(d) && IsDate(e) && d.month == e.month == 2 && d.day == e.day
    requires e.year == d.year + 5 && IsLeap(d.year) && IsLeap(d.year + 4)
    ensures DayNumber(e) == DayNumber(d) + ALIAS_DAYS && Weekday(DayNumber(e)) == Weekday(DayNumber(d))
  {
    YearsApart(d.year, 5);
    TwoLeapDays(d.year);
  }

  /** The window cannot be larger: two leap days lie between February of a leap year and February five years on. */
  lemma WindowIsTight(d: Date, e: Date) returns (m: int, n: int)
    requires IsDate(d) && IsDate(e) && d.month == e.month == 2 && d.day == e.day
    requires e.year == d.year + 5 && IsLeap(d.year) && IsLeap(d.year + 4)
    ensures n == m + ALIAS_DAYS * MINUTES_PER_DAY && DigestOfMinute(m) == DigestOfMinute(n)
  {
    FiveYearsOn(d, e);
    DigestOfMidnight(d);
    DigestOfMidnight(e);
    m, n := DayNumber(d) * MINUTES_PER_DAY, DayNumber(e) * MINUTES_PER_DAY;
  }

  /**
   * For instants the window is measured between their minutes, not between themselves: these two are
   * less than 1827 days apart, alike, and 1827 days apart as minutes.
   */
  lemma InstantsCanAlias() returns (t: Instant, u: Instant)
    ensures t < u < t + ALIAS_DAYS * MINUTES_PER_DAY * MINUTE
    ensures DigestTimestamp(t) == DigestTimestamp(u) && MinuteOf(t) != MinuteOf(u)
  {
    var m, n := WindowIsTight(Date(2020, 2, 1), Date(2025, 2, 1));
    t, u := m * MINUTE + 1, n * MINUTE;
    assert MinuteOf(t) == m && MinuteOf(u) == n;
  }

  /** Exactly when instants in the window with the same digest lie in the same minute. */
  lemma DigestTellsInstant(t: Instant, u: Instant)
    requires t <= u < t + ALIAS_DAYS * MINUTES_PER_DAY * MINUTE && DigestTimestamp(t) == DigestTimestamp(u)
    ensures MinuteOf(t) == MinuteOf(u) <==> MinuteOf(u) - MinuteOf(t) < ALIAS_DAYS * MINUTES_PER_DAY
  {
    if MinuteOf(u) - MinuteOf(t) < ALIAS_DAYS * MINUTES_PER_DAY {
      DigestTellsMinute(MinuteOf(t), MinuteOf(u));
    }
  }
}
