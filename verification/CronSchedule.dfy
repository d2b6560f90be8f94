/** What the scheduler does to the known_crontabs rows and the job queue, as functions. */
module CronSchedule {
  import opened Wrappers
  import opened Calendar
  import opened CronPattern
  import Text

  /** An item has the match function it was compiled to, or only the value lists of older versions. */
  datatype CronItem = CronItem(
    identifier: string, matcher: Option<TimestampDigest -> bool>, arrays: Schedule,
    backfill: bool, backfillPeriod: int)
  {
    predicate Matches(t: Instant) {
      match matcher
      case Some(f) => f(DigestTimestamp(t))
      case None => MatchesLegacy(arrays, DigestTimestamp(t))
    }

    /** A match is decided by the minute alone. */
    predicate MatchesMinute(m: int) {
      match matcher
      case Some(f) => f(DigestOfMinute(m))
      case None => MatchesLegacy(arrays, DigestOfMinute(m))
    }
  }

  /** A job the scheduler added: the identifier of its item, and its run_at. */
  datatype Entry = Entry(identifier: string, runAt: Instant)

  /** The rows by identifier with their last_execution, and every job added so far. */
  type Rows = map<string, Option<Instant>>
  datatype Book = Book(rows: Rows, jobs: seq<Entry>)

  /** The database call that fails while a task is scheduled. */
  datatype Trouble = Fine | CheckFails | RecordFails | EnqueueFails

  /** What one attempt to schedule finds: the clock as the duplicate check re-reads it, and a failing call. */
  datatype Reading = Reading(clock: Instant, trouble: Trouble)

  /** The duplicate check compares digests, which have no year, and ignores the time to be scheduled. */
  predicate AlreadyScheduled(rows: Rows, id: string, clock: Instant) {
    id in rows && rows[id].Some? && DigestTimestamp(rows[id].value) == DigestTimestamp(clock)
  }

  /** last_execution only moves forward. */
  function Recorded(rows: Rows, id: string, at: Instant): Rows {
    if id in rows && (rows[id].None? || rows[id].value < at) then rows[id := Some(at)] else rows
  }

  /** Check, record, enqueue; the first failing call ends it. */
  function Scheduled(b: Book, id: string, at: Instant, r: Reading): (Book, bool) {
    if r.trouble.CheckFails? then (b, false)
    else if AlreadyScheduled(b.rows, id, r.clock) then (b, true)
    else if r.trouble.RecordFails? then (b, false)
    else
      var c := b.(rows := Recorded(b.rows, id, at));
      if r.trouble.EnqueueFails? then (c, false) else (c.(jobs := c.jobs + [Entry(id, at)]), true)
  }

  // Live ticks

  datatype Tick = Tick(now: Instant, readings: nat -> Reading)

  /** A tick from item k on; an item that fails does not stop the others. */
  function TickFrom(items: seq<CronItem>, b: Book, t: Tick, k: nat): Book
    requires k <= |items|
    decreases |items| - k
  {
    if k == |items| then b
    else if items[k].Matches(t.now) then
      TickFrom(items, Scheduled(b, items[k].identifier, t.now, t.readings(k)).0, t, k + 1)
    else TickFrom(items, b, t, k + 1)
  }

  function AfterTicks(items: seq<CronItem>, b: Book, ticks: seq<Tick>): Book
    decreases |ticks|
  {
    if ticks == [] then b
    else AfterTicks(items, TickFrom(items, b, ticks[0], 0), ticks[1..])
  }

  // Backfill

  function Truncate(t: Instant): Instant {
    MinuteOf(t) * MINUTE
  }

  /** The matching times from a minute on, one for every minute that starts before the end. */
  function Times(item: CronItem, from: Instant, end: Instant): seq<Instant>
    decreases end - from
  {
    if from >= end then []
    else (if item.Matches(from) then [from] else []) + Times(item, from + MINUTE, end)
  }

  /** The times in order; the first failing call ends the item's backfill. */
  function BackfillTimes(b: Book, id: string, times: seq<Instant>, readings: nat -> Reading, k: nat): (Book, bool)
    requires k <= |times|
    decreases |times| - k
  {
    if k == |times| then (b, true)
    else
      var (c, ok) := Scheduled(b, id, times[k], readings(k));
      if ok then BackfillTimes(c, id, times, readings, k + 1) else (c, false)
  }

  /** The clock at the start, whether reading an item's last_execution fails, and the readings of each item's times. */
  datatype Startup = Startup(now: Instant, lookupFails: nat -> bool, readings: nat -> nat -> Reading)

  function BackfillStart(item: CronItem, last: Instant, now: Instant): Instant {
    if last < now - item.backfillPeriod then now - item.backfillPeriod else last
  }

  function BackfillItem(b: Book, item: CronItem, s: Startup, k: nat): Book {
    if !item.backfill || s.lookupFails(k) || item.identifier !in b.rows || b.rows[item.identifier].None? then b
    else
      var start := BackfillStart(item, b.rows[item.identifier].value, s.now);
      BackfillTimes(b, item.identifier, Times(item, Truncate(start), s.now), s.readings(k), 0).0
  }

  function BackfillFrom(items: seq<CronItem>, b: Book, s: Startup, k: nat): Book
    requires k <= |items|
    decreases |items| - k
  {
    if k == |items| then b else BackfillFrom(items, BackfillItem(b, items[k], s, k), s, k + 1)
  }

  /** A row for every item; known identifiers keep theirs. */
  function Registered(items: seq<CronItem>, rows: Rows): Rows {
    map id | id in rows.Keys + (set k | 0 <= k < |items| :: items[k].identifier) ::
      if id in rows then rows[id] else None
  }

  /** One start of a single scheduler with backfill, and the ticks that follow; jobs counts the session's own jobs. */
  function Session(items: seq<CronItem>, rows: Rows, s: Startup, ticks: seq<Tick>): Book {
    AfterTicks(items, BackfillFrom(items, Book(Registered(items, rows), []), s, 0), ticks)
  }

  // Times, independently of the loop

  predicate Ascending(times: seq<Instant>) {
    forall i, j | 0 <= i < j < |times| :: MinuteOf(times[i]) < MinuteOf(times[j])
  }

  lemma NextWholeMinute(from: Instant, t: Instant)
    requires from % 60_000_000_000 == 0 && t % 60_000_000_000 == 0
    ensures t == from || t < from || from + MINUTE <= t
  {}

  lemma {:induction false} TimesMember(item: CronItem, from: Instant, end: Instant, t: Instant)
    requires from % 60_000_000_000 == 0
    ensures t in Times(item, from, end) <==> t % 60_000_000_000 == 0 && from <= t < end && item.Matches(t)
    decreases end - from
  {
    if from < end {
      TimesMember(item, from + MINUTE, end, t);
      if t % 60_000_000_000 == 0 { NextWholeMinute(from, t); }
    }
  }

  lemma {:induction false} TimesAscend(item: CronItem, from: Instant, end: Instant)
    requires from % 60_000_000_000 == 0
    ensures Ascending(Times(item, from, end))
    decreases end - from
  {
    if from < end {
      TimesAscend(item, from + MINUTE, end);
      var rest := Times(item, from + MINUTE, end);
      forall j | 0 <= j < |rest| ensures MinuteOf(from) < MinuteOf(rest[j]) {
        TimesMember(item, from + MINUTE, end, rest[j]);
      }
    }
  }

  /** The matching whole minutes of a window that opens less than a minute before `start`, each once, ascending. */
  ghost predicate MatchesOfWindow(item: CronItem, start: Instant, end: Instant, times: seq<Instant>) {
    && (forall t :: t in times <==>
          t % 60_000_000_000 == 0 && start - 60_000_000_000 < t < end && item.Matches(t))
    && (forall i, j | 0 <= i < j < |times| :: times[i] < times[j])
  }

  lemma WholeMinuteFrom(t: Instant, start: Instant)
    ensures Truncate(start) % 60_000_000_000 == 0
    ensures t % 60_000_000_000 == 0 ==> (Truncate(start) <= t <==> start - 60_000_000_000 < t)
  {}

  lemma WindowIsExact(item: CronItem, start: Instant, end: Instant)
    ensures MatchesOfWindow(item, start, end, Times(item, Truncate(start), end))
    ensures Ascending(Times(item, Truncate(start), end))
  {
    WholeMinuteFrom(start, start);
    forall t
      ensures t in Times(item, Truncate(start), end) <==>
        t % 60_000_000_000 == 0 && start - 60_000_000_000 < t < end && item.Matches(t)
    {
      TimesMember(item, Truncate(start), end, t);
      WholeMinuteFrom(t, start);
    }
    TimesAscend(item, Truncate(start), end);
  }

  /** The item a pattern is parsed to: the compiled matcher, and the arrays beside it. */
  function PatternItem(identifier: string, s: Schedule, backfill: bool, backfillPeriod: int): CronItem {
    CronItem(identifier, Some(d => ArrayMatcher(s, d)), s, backfill, backfillPeriod)
  }

  /** A match function of the user's own decides alone, whatever the arrays are. */
  lemma MatcherTimes(item: CronItem, f: TimestampDigest -> bool, start: Instant, end: Instant, t: Instant)
    requires item.matcher == Some(f)
    ensures t in Times(item, Truncate(start), end) <==>
      t % 60_000_000_000 == 0 && start - 60_000_000_000 < t < end && f(DigestTimestamp(t))
  {
    WindowIsExact(item, start, end);
  }

  /** From the text of a pattern to the times it is run at; without a match function the arrays decide alike. */
  lemma PatternTimes(pattern: string, s: Schedule, item: CronItem, start: Instant, end: Instant, t: Instant)
    requires ParsePattern(pattern) == Compiled(s) && !Skewed(Text.Fields(pattern))
    requires item.arrays == s && (item.matcher.None? ||
      item == PatternItem(item.identifier, s, item.backfill, item.backfillPeriod))
    ensures t in Times(item, Truncate(start), end) <==>
      && t % 60_000_000_000 == 0 && start - 60_000_000_000 < t < end
      && Interpret(MeaningsOf(Text.Fields(pattern)), DigestTimestamp(t))
  {
    WindowIsExact(item, start, end);
    CompilePreservesMeaning(pattern, s);
    DigestsAreValid(t);
    assert item.Matches(t) == ArrayMatcher(s, DigestTimestamp(t));
  }

  // last_execution never goes back

  predicate NotBack(was: Rows, now: Rows) {
    forall id | id in was && was[id].Some? :: id in now && now[id].Some? && was[id].value <= now[id].value
  }

  lemma RecordedNotBack(rows: Rows, id: string, at: Instant)
    ensures NotBack(rows, Recorded(rows, id, at))
  {}

  lemma ScheduledNotBack(b: Book, id: string, at: Instant, r: Reading)
    ensures NotBack(b.rows, Scheduled(b, id, at, r).0.rows)
  {
    RecordedNotBack(b.rows, id, at);
    assert Scheduled(b, id, at, r).0.rows in [b.rows, Recorded(b.rows, id, at)];
  }

  lemma NotBackChains(a: Rows, b: Rows, c: Rows)
    requires NotBack(a, b) && NotBack(b, c)
    ensures NotBack(a, c)
  {}

  lemma {:induction false} TickNotBack(items: seq<CronItem>, b: Book, t: Tick, k: nat)
    requires k <= |items|
    ensures NotBack(b.rows, TickFrom(items, b, t, k).rows)
    decreases |items| - k
  {
    if k < |items| {
      if items[k].Matches(t.now) {
        var c := Scheduled(b, items[k].identifier, t.now, t.readings(k)).0;
        ScheduledNotBack(b, items[k].identifier, t.now, t.readings(k));
        TickNotBack(items, c, t, k + 1);
        NotBackChains(b.rows, c.rows, TickFrom(items, c, t, k + 1).rows);
      } else {
        TickNotBack(items, b, t, k + 1);
      }
    }
  }

  lemma {:induction false} TicksNotBack(items: seq<CronItem>, b: Book, ticks: seq<Tick>)
    ensures NotBack(b.rows, AfterTicks(items, b, ticks).rows)
    decreases |ticks|
  {
    if ticks != [] {
      TickNotBack(items, b, ticks[0], 0);
      TicksNotBack(items, TickFrom(items, b, ticks[0], 0), ticks[1..]);
    }
  }

  lemma {:induction false} TimesNotBack(b: Book, id: string, times: seq<Instant>, readings: nat -> Reading, k: nat)
    requires k <= |times|
    ensures NotBack(b.rows, BackfillTimes(b, id, times, readings, k).0.rows)
    decreases |times| - k
  {
    if k < |times| {
      var c := Scheduled(b, id, times[k], readings(k)).0;
      ScheduledNotBack(b, id, times[k], readings(k));
      TimesNotBack(c, id, times, readings, k + 1);
      NotBackChains(b.rows, c.rows, BackfillTimes(c, id, times, readings, k + 1).0.rows);
    }
  }

  lemma {:induction false} BackfillNotBack(items: seq<CronItem>, b: Book, s: Startup, k: nat)
    requires k <= |items|
    ensures NotBack(b.rows, BackfillFrom(items, b, s, k).rows)
    decreases |items| - k
  {
    if k < |items| {
      var item := items[k];
      if item.backfill && !s.lookupFails(k) && item.identifier in b.rows && b.rows[item.identifier].Some? {
        TimesNotBack(b, item.identifier,
          Times(item, Truncate(BackfillStart(item, b.rows[item.identifier].value, s.now)), s.now), s.readings(k), 0);
      }
      BackfillNotBack(items, BackfillItem(b, item, s, k), s, k + 1);
    }
  }

  /** Whatever the clock does and whichever calls fail. */
  lemma LastExecutionNeverGoesBack(items: seq<CronItem>, rows: Rows, s: Startup, ticks: seq<Tick>, n: nat)
    requires n <= |ticks|
    ensures NotBack(rows, Session(items, rows, s, ticks[..n]).rows)
    ensures NotBack(Session(items, rows, s, ticks[..n]).rows, Session(items, rows, s, ticks).rows)
  {
    var b := Book(Registered(items, rows), []);
    BackfillNotBack(items, b, s, 0);
    TicksNotBack(items, BackfillFrom(items, b, s, 0), ticks[..n]);
    TicksCompose(items, BackfillFrom(items, b, s, 0), ticks, n);
    TicksNotBack(items, Session(items, rows, s, ticks[..n]), ticks[n..]);
  }

  lemma {:induction false} TicksCompose(items: seq<CronItem>, b: Book, ticks: seq<Tick>, n: nat)
    requires n <= |ticks|
    ensures AfterTicks(items, b, ticks) == AfterTicks(items, AfterTicks(items, b, ticks[..n]), ticks[n..])
    decreases n
  {
    if n > 0 {
      TicksCompose(items, TickFrom(items, b, ticks[0], 0), ticks[1..], n - 1);
      assert ticks[1..][..n - 1] == ticks[..n][1..];
      assert ticks[1..][n - 1..] == ticks[n..];
    } else {
      assert ticks[0..] == ticks;
    }
  }
}
