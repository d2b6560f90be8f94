/** What a session of the scheduler does to one item, over every run of ticks. */
module CronTheorems {
  import opened Wrappers
  import opened Calendar
  import opened CronSchedule

  // One item's share of the book

  function TimesOf(jobs: seq<Entry>, id: string): seq<Instant> {
    if jobs == [] then []
    else
      var e := jobs[|jobs| - 1];
      TimesOf(jobs[..|jobs| - 1], id) + (if e.identifier == id then [e.runAt] else [])
  }

  datatype Row = Row(last: Option<Instant>, at: seq<Instant>)
  {
    predicate Seen(clock: Instant) {
      last.Some? && DigestTimestamp(last.value) == DigestTimestamp(clock)
    }

    function Record(t: Instant): Row {
      if last.None? || last.value < t then this.(last := Some(t)) else this
    }

    function Step(t: Instant, r: Reading): (Row, bool) {
      if r.trouble.CheckFails? then (this, false)
      else if Seen(r.clock) then (this, true)
      else if r.trouble.RecordFails? then (this, false)
      else if r.trouble.EnqueueFails? then (Record(t), false)
      else (Record(t).(at := at + [t]), true)
    }
  }

  function RowOf(b: Book, id: string): Row
    requires id in b.rows
  {
    Row(b.rows[id], TimesOf(b.jobs, id))
  }

  predicate Unique(items: seq<CronItem>, i: nat) {
    i < |items| && forall j | 0 <= j < |items| && j != i :: items[j].identifier != items[i].identifier
  }

  lemma ScheduledRow(b: Book, id: string, t: Instant, r: Reading, who: string)
    requires who in b.rows
    ensures who in Scheduled(b, id, t, r).0.rows
    ensures RowOf(Scheduled(b, id, t, r).0, who) == if id == who then RowOf(b, who).Step(t, r).0 else RowOf(b, who)
    ensures id == who ==> Scheduled(b, id, t, r).1 == RowOf(b, who).Step(t, r).1
  {}

  function TickRow(item: CronItem, i: nat, r: Row, t: Tick): Row {
    if item.Matches(t.now) then r.Step(t.now, t.readings(i)).0 else r
  }

  lemma {:induction false} TickRowOf(items: seq<CronItem>, b: Book, t: Tick, k: nat, i: nat)
    requires k <= |items| && Unique(items, i) && items[i].identifier in b.rows
    ensures items[i].identifier in TickFrom(items, b, t, k).rows
    ensures RowOf(TickFrom(items, b, t, k), items[i].identifier)
         == if k <= i then TickRow(items[i], i, RowOf(b, items[i].identifier), t) else RowOf(b, items[i].identifier)
    decreases |items| - k
  {
    if k < |items| {
      ScheduledRow(b, items[k].identifier, t.now, t.readings(k), items[i].identifier);
      var c := if items[k].Matches(t.now) then Scheduled(b, items[k].identifier, t.now, t.readings(k)).0 else b;
      TickRowOf(items, c, t, k + 1, i);
    }
  }

  function TicksRow(item: CronItem, i: nat, r: Row, ticks: seq<Tick>): Row
    decreases |ticks|
  {
    if ticks == [] then r else TicksRow(item, i, TickRow(item, i, r, ticks[0]), ticks[1..])
  }

  lemma {:induction false} TicksRowOf(items: seq<CronItem>, b: Book, ticks: seq<Tick>, i: nat)
    requires Unique(items, i) && items[i].identifier in b.rows
    ensures items[i].identifier in AfterTicks(items, b, ticks).rows
    ensures RowOf(AfterTicks(items, b, ticks), items[i].identifier)
      == TicksRow(items[i], i, RowOf(b, items[i].identifier), ticks)
    decreases |ticks|
  {
    if ticks != [] {
      TickRowOf(items, b, ticks[0], 0, i);
      TicksRowOf(items, TickFrom(items, b, ticks[0], 0), ticks[1..], i);
    }
  }

  function TimesRow(r: Row, times: seq<Instant>, readings: nat -> Reading, k: nat): Row
    requires k <= |times|
    decreases |times| - k
  {
    if k == |times| then r
    else
      var (next, ok) := r.Step(times[k], readings(k));
      if ok then TimesRow(next, times, readings, k + 1) else next
  }

  lemma {:induction false} TimesRowOf(
    b: Book, id: string, times: seq<Instant>, readings: nat -> Reading, k: nat, who: string)
    requires k <= |times| && who in b.rows
    ensures who in BackfillTimes(b, id, times, readings, k).0.rows
    ensures RowOf(BackfillTimes(b, id, times, readings, k).0, who)
         == if id == who then TimesRow(RowOf(b, who), times, readings, k) else RowOf(b, who)
    decreases |times| - k
  {
    if k < |times| {
      ScheduledRow(b, id, times[k], readings(k), who);
      TimesRowOf(Scheduled(b, id, times[k], readings(k)).0, id, times, readings, k + 1, who);
    }
  }

  function BackfillWindow(item: CronItem, last: Instant, now: Instant): seq<Instant> {
    Times(item, Truncate(BackfillStart(item, last, now)), now)
  }

  function BackfillRow(item: CronItem, r: Row, s: Startup, i: nat): Row {
    if !item.backfill || s.lookupFails(i) || r.last.None? then r
    else TimesRow(r, BackfillWindow(item, r.last.value, s.now), s.readings(i), 0)
  }

  lemma BackfillItemRow(b: Book, item: CronItem, s: Startup, k: nat, who: string)
    requires who in b.rows
    ensures who in BackfillItem(b, item, s, k).rows
    ensures RowOf(BackfillItem(b, item, s, k), who)
         == if item.identifier == who then BackfillRow(item, RowOf(b, who), s, k) else RowOf(b, who)
  {
    if item.identifier in b.rows && b.rows[item.identifier].Some? {
      TimesRowOf(b, item.identifier, BackfillWindow(item, b.rows[item.identifier].value, s.now), s.readings(k), 0, who);
    }
  }

  lemma {:induction false} BackfillRowOf(items: seq<CronItem>, b: Book, s: Startup, k: nat, i: nat)
    requires k <= |items| && Unique(items, i) && items[i].identifier in b.rows
    ensures items[i].identifier in BackfillFrom(items, b, s, k).rows
    ensures RowOf(BackfillFrom(items, b, s, k), items[i].identifier)
         == if k <= i then BackfillRow(items[i], RowOf(b, items[i].identifier), s, i) else RowOf(b, items[i].identifier)
    decreases |items| - k
  {
    if k < |items| {
      BackfillItemRow(b, items[k], s, k, items[i].identifier);
      BackfillRowOf(items, BackfillItem(b, items[k], s, k), s, k + 1, i);
    }
  }

  function Stored(rows: Rows, id: string): Option<Instant> {
    if id in rows then rows[id] else None
  }

  function SessionRow(item: CronItem, i: nat, was: Option<Instant>, s: Startup, ticks: seq<Tick>): Row {
    TicksRow(item, i, BackfillRow(item, Row(was, []), s, i), ticks)
  }

  /** The run times of an item's jobs, in the order they were added. */
  function Enqueued(items: seq<CronItem>, rows: Rows, s: Startup, ticks: seq<Tick>, i: nat): seq<Instant>
    requires i < |items|
  {
    TimesOf(Session(items, rows, s, ticks).jobs, items[i].identifier)
  }

  /** Items with different identifiers do not disturb each other. */
  lemma SessionRowOf(items: seq<CronItem>, rows: Rows, s: Startup, ticks: seq<Tick>, i: nat)
    requires Unique(items, i)
    ensures Enqueued(items, rows, s, ticks, i)
      == SessionRow(items[i], i, Stored(rows, items[i].identifier), s, ticks).at
  {
    var b := Book(Registered(items, rows), []);
    BackfillRowOf(items, b, s, 0, i);
    TicksRowOf(items, BackfillFrom(items, b, s, 0), ticks, i);
  }

  // At most once a minute

  predicate NoMinuteTwice(at: seq<Instant>) {
    forall i, j | 0 <= i < j < |at| :: MinuteOf(at[i]) != MinuteOf(at[j])
  }

  /** The matching ticks from a minute on do not go back, and re-read the clock in their own minute. */
  predicate InOrder(item: CronItem, i: nat, from: int, ticks: seq<Tick>) {
    && (forall k | 0 <= k < |ticks| && item.Matches(ticks[k].now) ::
          from <= MinuteOf(ticks[k].now) == MinuteOf(ticks[k].readings(i).clock))
    && (forall j, k | 0 <= j < k < |ticks| && item.Matches(ticks[j].now) && item.Matches(ticks[k].now) ::
          MinuteOf(ticks[j].now) <= MinuteOf(ticks[k].now))
  }

  /** The stored last_execution is in a later minute than one still to come that matches and looks different. */
  predicate Ahead(item: CronItem, was: Option<Instant>, from: int) {
    was.Some? && exists m | from <= m < MinuteOf(was.value) ::
      item.MatchesMinute(m) && DigestOfMinute(m) != DigestTimestamp(was.value)
  }

  predicate HasMinute(at: seq<Instant>, m: int) {
    exists k | 0 <= k < |at| :: MinuteOf(at[k]) == m
  }

  /** What every attempt keeps: lo is the last minute attempted. */
  predicate Kept(r: Row, was: Option<Instant>, lo: int) {
    && NoMinuteTwice(r.at)
    && (forall k | 0 <= k < |r.at| :: MinuteOf(r.at[k]) <= lo)
    && (r.last == was || (r.last.Some? && MinuteOf(r.last.value) <= lo))
    && (HasMinute(r.at, lo) ==> r.last.Some? && DigestTimestamp(r.last.value) == DigestOfMinute(lo))
  }

  lemma KeptLater(r: Row, was: Option<Instant>, lo: int, hi: int)
    requires Kept(r, was, lo) && lo <= hi
    ensures Kept(r, was, hi)
  {}

  /** Once recorded, the stored time looks like the minute. */
  lemma RecordKeeps(r: Row, was: Option<Instant>, lo: int, t: Instant)
    requires r.last == was || (r.last.Some? && MinuteOf(r.last.value) <= lo)
    requires lo <= MinuteOf(t)
    requires was.Some? && MinuteOf(t) < MinuteOf(was.value) ==> DigestTimestamp(was.value) == DigestTimestamp(t)
    ensures var last := r.Record(t).last;
      && last.Some? && (last == was || MinuteOf(last.value) <= MinuteOf(t))
      && DigestTimestamp(last.value) == DigestTimestamp(t)
  {}

  lemma AppendNew(at: seq<Instant>, t: Instant)
    requires NoMinuteTwice(at) && !HasMinute(at, MinuteOf(t))
    requires forall k | 0 <= k < |at| :: MinuteOf(at[k]) <= MinuteOf(t)
    ensures NoMinuteTwice(at + [t]) && forall k | 0 <= k < |at + [t]| :: MinuteOf((at + [t])[k]) <= MinuteOf(t)
  {}

  /** The minute is new, or the duplicate check looks at it; and the stored time is not ahead of it. */
  lemma StepKeeps(r: Row, was: Option<Instant>, lo: int, t: Instant, rd: Reading)
    requires Kept(r, was, lo) && lo <= MinuteOf(t)
    requires lo < MinuteOf(t) || MinuteOf(rd.clock) == MinuteOf(t)
    requires was.Some? && MinuteOf(t) < MinuteOf(was.value) ==> DigestTimestamp(was.value) == DigestTimestamp(t)
    ensures Kept(r.Step(t, rd).0, was, MinuteOf(t))
  {
    KeptLater(r, was, lo, MinuteOf(t));
    RecordKeeps(r, was, lo, t);
    if HasMinute(r.at, MinuteOf(t)) {
      assert r.Seen(rd.clock);
    } else {
      AppendNew(r.at, t);
    }
  }

  lemma {:induction false} TimesKeep(
    r: Row, was: Option<Instant>, lo: int, times: seq<Instant>, readings: nat -> Reading, k: nat, hi: int)
    requires k <= |times| && Ascending(times) && Kept(r, was, lo) && lo <= hi && was.Some?
    requires forall j | k <= j < |times| :: lo < MinuteOf(times[j]) <= hi && MinuteOf(was.value) <= MinuteOf(times[j])
    ensures Kept(TimesRow(r, times, readings, k), was, hi)
    decreases |times| - k
  {
    if k == |times| {
      KeptLater(r, was, lo, hi);
    } else {
      StepKeeps(r, was, lo, times[k], readings(k));
      var (next, ok) := r.Step(times[k], readings(k));
      if ok {
        TimesKeep(next, was, MinuteOf(times[k]), times, readings, k + 1, hi);
      } else {
        KeptLater(next, was, MinuteOf(times[k]), hi);
      }
    }
  }

  lemma WindowMinutes(item: CronItem, last: Instant, now: Instant)
    ensures Ascending(BackfillWindow(item, last, now))
    ensures forall t | t in BackfillWindow(item, last, now) ::
      t < now && MinuteOf(last) <= MinuteOf(t) <= MinuteOf(now) && (MinuteOf(t) < MinuteOf(now) || t == Truncate(now))
  {
    var start := BackfillStart(item, last, now);
    WindowIsExact(item, start, now);
    forall t | t in BackfillWindow(item, last, now)
      ensures t < now && MinuteOf(last) <= MinuteOf(t) <= MinuteOf(now)
      ensures MinuteOf(t) < MinuteOf(now) || t == Truncate(now)
    {
      assert t % 60_000_000_000 == 0 && last - 60_000_000_000 < t;
    }
  }

  lemma BackfillKeeps(item: CronItem, i: nat, was: Option<Instant>, s: Startup)
    ensures Kept(BackfillRow(item, Row(was, []), s, i), was, MinuteOf(s.now))
  {
    if was.Some? {
      WindowMinutes(item, was.value, s.now);
      var times := BackfillWindow(item, was.value, s.now);
      var lo := if times == [] then MinuteOf(s.now) else MinuteOf(times[0]) - 1;
      assert forall j | 0 <= j < |times| :: times[j] in times;
      TimesKeep(Row(was, []), was, lo, times, s.readings(i), 0, MinuteOf(s.now));
    }
  }

  lemma {:induction false} TicksKeep(
    item: CronItem, i: nat, r: Row, was: Option<Instant>, from: int, lo: int, ticks: seq<Tick>) returns (hi: int)
    requires Kept(r, was, lo) && from <= lo && !Ahead(item, was, from) && InOrder(item, i, lo, ticks)
    ensures Kept(TicksRow(item, i, r, ticks), was, hi)
    decreases |ticks|
  {
    if ticks == [] {
      hi := lo;
    } else {
      var next := lo;
      if item.Matches(ticks[0].now) {
        next := MinuteOf(ticks[0].now);
        assert item.MatchesMinute(next);
        StepKeeps(r, was, lo, ticks[0].now, ticks[0].readings(i));
      }
      hi := TicksKeep(item, i, TickRow(item, i, r, ticks[0]), was, from, next, ticks[1..]);
    }
  }

  // The stored time ahead of the clock

  lemma StepBefore(r: Row, t: Instant, rd: Reading)
    requires r.last.Some? && t < r.last.value
    ensures r.Step(t, rd).0.last == r.last
  {}

  lemma {:induction false} TimesBefore(r: Row, times: seq<Instant>, readings: nat -> Reading, k: nat)
    requires k <= |times| && r.last.Some? && forall t | t in times :: t < r.last.value
    ensures TimesRow(r, times, readings, k).last == r.last
    decreases |times| - k
  {
    if k < |times| {
      assert times[k] in times;
      StepBefore(r, times[k], readings(k));
      TimesBefore(r.Step(times[k], readings(k)).0, times, readings, k + 1);
    }
  }

  lemma BackfillBefore(item: CronItem, i: nat, was: Option<Instant>, s: Startup)
    requires was.Some? && s.now <= was.value
    ensures BackfillRow(item, Row(was, []), s, i).last == was
  {
    WindowMinutes(item, was.value, s.now);
    TimesBefore(Row(was, []), BackfillWindow(item, was.value, s.now), s.readings(i), 0);
  }

  /** The tick is in minute m, and none of its calls for item i fails. */
  predicate TicksIn(m: int, i: nat, tick: Tick) {
    MinuteOf(tick.now) == m == MinuteOf(tick.readings(i).clock) && tick.readings(i).trouble.Fine?
  }

  lemma TicksInOrder(item: CronItem, i: nat, m: int, a: Tick, b: Tick, from: int)
    requires TicksIn(m, i, a) && TicksIn(m, i, b) && from <= m
    ensures InOrder(item, i, from, [a, b])
  {}

  lemma TickAdds(item: CronItem, i: nat, r: Row, m: int, tick: Tick)
    requires TicksIn(m, i, tick) && item.MatchesMinute(m)
    requires r.last.Some? && m < MinuteOf(r.last.value) && DigestTimestamp(r.last.value) != DigestOfMinute(m)
    ensures TickRow(item, i, r, tick) == r.(at := r.at + [tick.now])
  {}

  lemma TwoTicks(item: CronItem, i: nat, r: Row, m: int, a: Tick, b: Tick)
    requires TicksIn(m, i, a) && TicksIn(m, i, b) && item.MatchesMinute(m)
    requires r.last.Some? && m < MinuteOf(r.last.value) && DigestTimestamp(r.last.value) != DigestOfMinute(m)
    ensures TicksRow(item, i, r, [a, b]).at == r.at + [a.now] + [b.now]
    ensures !NoMinuteTwice(TicksRow(item, i, r, [a, b]).at)
  {
    var n := |r.at|;
    var one := TickRow(item, i, r, a);
    TickAdds(item, i, r, m, a);
    var two := TickRow(item, i, one, b);
    TickAdds(item, i, one, m, b);
    assert [a, b][1..] == [b] && [b][1..] == [];
    assert TicksRow(item, i, one, [b]) == TicksRow(item, i, two, []) == two;
    assert two.at[n] == a.now && two.at[n + 1] == b.now;
  }

  /** Any two ticks in that minute, both enqueued. */
  lemma AheadDuplicates(item: CronItem, i: nat, was: Option<Instant>, s: Startup, m: int, a: Tick, b: Tick)
    requires was.Some? && MinuteOf(s.now) <= m < MinuteOf(was.value)
    requires item.MatchesMinute(m) && DigestOfMinute(m) != DigestTimestamp(was.value)
    requires TicksIn(m, i, a) && TicksIn(m, i, b)
    ensures InOrder(item, i, MinuteOf(s.now), [a, b])
    ensures !NoMinuteTwice(SessionRow(item, i, was, s, [a, b]).at)
  {
    TicksInOrder(item, i, m, a, b, MinuteOf(s.now));
    BackfillBefore(item, i, was, s);
    TwoTicks(item, i, BackfillRow(item, Row(was, []), s, i), m, a, b);
  }

  lemma AheadFails(item: CronItem, i: nat, was: Option<Instant>, s: Startup) returns (ticks: seq<Tick>)
    requires Ahead(item, was, MinuteOf(s.now))
    ensures InOrder(item, i, MinuteOf(s.now), ticks) && !NoMinuteTwice(SessionRow(item, i, was, s, ticks).at)
  {
    var m :| MinuteOf(s.now) <= m < MinuteOf(was.value)
      && item.MatchesMinute(m) && DigestOfMinute(m) != DigestTimestamp(was.value);
    var t := m * MINUTE;
    var tick := Tick(t, k => Reading(t, Fine));
    ticks := [tick, tick];
    AheadDuplicates(item, i, was, s, m, tick, tick);
  }

  /**
   * Backfill and any ticks after it never add a minute twice, exactly if the stored last_execution is not
   * ahead of a matching minute. Calls may fail at will; ticks that do not match may show any time. A start
   * without backfill is one whose lookups all fail.
   */
  lemma AtMostOnceAMinute(items: seq<CronItem>, rows: Rows, s: Startup, i: nat)
    requires Unique(items, i)
    ensures
      (forall ticks | InOrder(items[i], i, MinuteOf(s.now), ticks) :: NoMinuteTwice(Enqueued(items, rows, s, ticks, i)))
         <==> !Ahead(items[i], Stored(rows, items[i].identifier), MinuteOf(s.now))
  {
    var item, was, from := items[i], Stored(rows, items[i].identifier), MinuteOf(s.now);
    if Ahead(item, was, from) {
      var ticks := AheadFails(item, i, was, s);
      SessionRowOf(items, rows, s, ticks, i);
    } else {
      forall ticks | InOrder(item, i, from, ticks) ensures NoMinuteTwice(Enqueued(items, rows, s, ticks, i)) {
        BackfillKeeps(item, i, was, s);
        var hi := TicksKeep(item, i, BackfillRow(item, Row(was, []), s, i), was, from, from, ticks);
        SessionRowOf(items, rows, s, ticks, i);
      }
    }
  }

  // Nothing else is enqueued

  lemma {:induction false} TimesAdd(r: Row, times: seq<Instant>, readings: nat -> Reading, k: nat)
    requires k <= |times|
    ensures forall t | t in TimesRow(r, times, readings, k).at :: t in r.at || t in times
    decreases |times| - k
  {
    if k < |times| {
      TimesAdd(r.Step(times[k], readings(k)).0, times, readings, k + 1);
    }
  }

  lemma {:induction false} TicksAdd(item: CronItem, i: nat, r: Row, ticks: seq<Tick>)
    ensures forall t | t in TicksRow(item, i, r, ticks).at ::
      t in r.at || (item.Matches(t) && exists k | 0 <= k < |ticks| :: ticks[k].now == t)
    decreases |ticks|
  {
    if ticks != [] {
      var next := TickRow(item, i, r, ticks[0]);
      TicksAdd(item, i, next, ticks[1..]);
      forall t | t in TicksRow(item, i, r, ticks).at
        ensures t in r.at || (item.Matches(t) && exists k | 0 <= k < |ticks| :: ticks[k].now == t)
      {
        if t !in next.at {
          var k :| 0 <= k < |ticks[1..]| && ticks[1..][k].now == t;
          assert ticks[k + 1].now == t;
        } else if t !in r.at {
          assert ticks[0].now == t;
        }
      }
    }
  }

  lemma BackfillAdds(item: CronItem, i: nat, was: Option<Instant>, s: Startup, t: Instant)
    requires t in BackfillRow(item, Row(was, []), s, i).at
    ensures item.backfill && !s.lookupFails(i) && was.Some? && t in BackfillWindow(item, was.value, s.now)
  {
    if was.Some? {
      TimesAdd(Row(was, []), BackfillWindow(item, was.value, s.now), s.readings(i), 0);
    }
  }

  /**
   * Whatever fails and whatever the clock shows: a time enqueued for an item matches it, and is that of a live
   * tick, or a whole minute of the backfill of an item that has one and was run before.
   */
  lemma OnlyMatchesAreEnqueued(items: seq<CronItem>, rows: Rows, s: Startup, ticks: seq<Tick>, i: nat, t: Instant)
    requires Unique(items, i) && t in Enqueued(items, rows, s, ticks, i)
    ensures var item, was := items[i], Stored(rows, items[i].identifier);
      && item.Matches(t)
      && ((exists k | 0 <= k < |ticks| :: ticks[k].now == t) ||
          (&& item.backfill && was.Some? && t % 60_000_000_000 == 0 && t < s.now
           && was.value - 60_000_000_000 < t && s.now - item.backfillPeriod - 60_000_000_000 < t))
  {
    var item, was := items[i], Stored(rows, items[i].identifier);
    SessionRowOf(items, rows, s, ticks, i);
    var r := BackfillRow(item, Row(was, []), s, i);
    TicksAdd(item, i, r, ticks);
    if t in r.at {
      BackfillAdds(item, i, was, s, t);
      WindowOfBackfill(item, was.value, s.now);
    }
  }

  // At least once

  /** Every recorded time is the minute of a job, if no call failed; base bounds it from below. */
  predicate Accounted(r: Row, was: Option<Instant>, base: int, lo: int) {
    r.last == was || (r.last.Some? && base <= MinuteOf(r.last.value) <= lo && HasMinute(r.at, MinuteOf(r.last.value)))
  }

  lemma EnqueuedHas(at: seq<Instant>, t: Instant)
    ensures HasMinute(at + [t], MinuteOf(t))
    ensures forall m | HasMinute(at, m) :: HasMinute(at + [t], m)
  {
    assert (at + [t])[|at|] == t;
    forall m | HasMinute(at, m) ensures HasMinute(at + [t], m) {
      var k :| 0 <= k < |at| && MinuteOf(at[k]) == m;
      assert (at + [t])[k] == at[k];
    }
  }

  lemma StepAccounts(r: Row, was: Option<Instant>, base: int, lo: int, t: Instant, rd: Reading)
    requires Accounted(r, was, base, lo) && lo <= MinuteOf(t) && base <= MinuteOf(t) && rd.trouble.Fine?
    ensures Accounted(r.Step(t, rd).0, was, base, MinuteOf(t)) && r.Step(t, rd).1
    ensures forall m | HasMinute(r.at, m) :: HasMinute(r.Step(t, rd).0.at, m)
  {
    EnqueuedHas(r.at, t);
  }

  lemma TickAccounts(r: Row, was: Option<Instant>, base: int, lo: int, t: Instant, rd: Reading)
    requires Accounted(r, was, base, lo) && lo <= MinuteOf(t) && rd.trouble.Fine?
    requires base <= MinuteOf(t) < base + ALIAS_DAYS * MINUTES_PER_DAY && MinuteOf(rd.clock) == MinuteOf(t)
    requires was.Some? ==> base == MinuteOf(was.value) < MinuteOf(t)
    ensures HasMinute(r.Step(t, rd).0.at, MinuteOf(t))
  {
    EnqueuedHas(r.at, t);
    if r.Seen(rd.clock) {
      DigestTellsMinute(MinuteOf(r.last.value), MinuteOf(t));
    }
  }

  lemma {:induction false} TimesAccount(
    r: Row, was: Option<Instant>, lo: int, times: seq<Instant>, readings: nat -> Reading, k: nat, hi: int)
    requires k <= |times| && Ascending(times) && was.Some? && Accounted(r, was, MinuteOf(was.value), lo) && lo <= hi
    requires forall j | k <= j < |times| :: lo <= MinuteOf(times[j]) <= hi && MinuteOf(was.value) <= MinuteOf(times[j])
    requires forall j | k <= j < |times| :: readings(j).trouble.Fine?
    ensures Accounted(TimesRow(r, times, readings, k), was, MinuteOf(was.value), hi)
    decreases |times| - k
  {
    if k < |times| {
      StepAccounts(r, was, MinuteOf(was.value), lo, times[k], readings(k));
      TimesAccount(r.Step(times[k], readings(k)).0, was, MinuteOf(times[k]), times, readings, k + 1, hi);
    }
  }

  lemma BackfillAccounts(item: CronItem, i: nat, was: Option<Instant>, base: int, s: Startup)
    requires was.Some? ==> base == MinuteOf(was.value)
    requires forall k: nat :: s.readings(i)(k).trouble.Fine?
    ensures Accounted(BackfillRow(item, Row(was, []), s, i), was, base, MinuteOf(s.now))
  {
    if was.Some? {
      WindowMinutes(item, was.value, s.now);
      var times := BackfillWindow(item, was.value, s.now);
      assert forall j | 0 <= j < |times| :: times[j] in times;
      var lo := if times == [] then MinuteOf(s.now) else MinuteOf(times[0]);
      TimesAccount(Row(was, []), was, lo, times, s.readings(i), 0, MinuteOf(s.now));
    }
  }

  lemma TickRowAccounts(item: CronItem, i: nat, r: Row, was: Option<Instant>, base: int, lo: int, tick: Tick, next: int)
    requires Accounted(r, was, base, lo) && base <= lo && (was.Some? ==> base == MinuteOf(was.value) < lo)
    requires if item.Matches(tick.now)
      then tick.readings(i).trouble.Fine? && MinuteOf(tick.now) == MinuteOf(tick.readings(i).clock) == next
        && lo <= next < base + ALIAS_DAYS * MINUTES_PER_DAY
      else lo == next
    ensures Accounted(TickRow(item, i, r, tick), was, base, next)
    ensures item.Matches(tick.now) ==> HasMinute(TickRow(item, i, r, tick).at, next)
    ensures forall m | HasMinute(r.at, m) :: HasMinute(TickRow(item, i, r, tick).at, m)
  {
    if item.Matches(tick.now) {
      StepAccounts(r, was, base, lo, tick.now, tick.readings(i));
      TickAccounts(r, was, base, lo, tick.now, tick.readings(i));
    }
  }

  lemma {:induction false} TicksAccount(
    item: CronItem, i: nat, r: Row, was: Option<Instant>, base: int, lo: int, ticks: seq<Tick>)
    requires Accounted(r, was, base, lo) && base <= lo && InOrder(item, i, lo, ticks)
    requires was.Some? ==> base == MinuteOf(was.value) < lo
    requires forall k | 0 <= k < |ticks| && item.Matches(ticks[k].now) ::
      ticks[k].readings(i).trouble.Fine? && MinuteOf(ticks[k].now) < base + ALIAS_DAYS * MINUTES_PER_DAY
    ensures forall k | 0 <= k < |ticks| && item.Matches(ticks[k].now) ::
      HasMinute(TicksRow(item, i, r, ticks).at, MinuteOf(ticks[k].now))
    ensures forall m | HasMinute(r.at, m) :: HasMinute(TicksRow(item, i, r, ticks).at, m)
    decreases |ticks|
  {
    if ticks != [] {
      var next := if item.Matches(ticks[0].now) then MinuteOf(ticks[0].now) else lo;
      TickRowAccounts(item, i, r, was, base, lo, ticks[0], next);
      TicksAccount(item, i, TickRow(item, i, r, ticks[0]), was, base, next, ticks[1..]);
    }
  }

  /** The minute from which the 1827 days are counted: the stored time's, or the start's. */
  function Base(was: Option<Instant>, s: Startup): int {
    match was
    case Some(t) => MinuteOf(t)
    case None => MinuteOf(s.now)
  }

  /**
   * If no call fails and the stored time is in an earlier minute, every matching tick has its minute enqueued,
   * once.
   */
  lemma ExactlyOnceAMinute(items: seq<CronItem>, rows: Rows, s: Startup, ticks: seq<Tick>, i: nat)
    requires Unique(items, i) && InOrder(items[i], i, MinuteOf(s.now), ticks)
    requires var was := Stored(rows, items[i].identifier); was.Some? ==> MinuteOf(was.value) < MinuteOf(s.now)
    requires forall k: nat :: s.readings(i)(k).trouble.Fine?
    requires forall k | 0 <= k < |ticks| && items[i].Matches(ticks[k].now) ::
      ticks[k].readings(i).trouble.Fine?
      && MinuteOf(ticks[k].now) < Base(Stored(rows, items[i].identifier), s) + ALIAS_DAYS * MINUTES_PER_DAY
    ensures NoMinuteTwice(Enqueued(items, rows, s, ticks, i))
    ensures forall k | 0 <= k < |ticks| && items[i].Matches(ticks[k].now) ::
      HasMinute(Enqueued(items, rows, s, ticks, i), MinuteOf(ticks[k].now))
  {
    var item, was := items[i], Stored(rows, items[i].identifier);
    AtMostOnceAMinute(items, rows, s, i);
    BackfillAccounts(item, i, was, Base(was, s), s);
    TicksAccount(item, i, BackfillRow(item, Row(was, []), s, i), was, Base(was, s), MinuteOf(s.now), ticks);
    SessionRowOf(items, rows, s, ticks, i);
  }

  // Backfill

  /** From step k on no call fails, and no check takes what is stored by then for its own reading of the clock. */
  predicate EachPasses(last: Instant, times: seq<Instant>, readings: nat -> Reading, k: nat)
    requires k <= |times|
  {
    forall j | k <= j < |times| ::
      && readings(j).trouble.Fine?
      && DigestTimestamp(if j == k then last else times[j - 1]) != DigestTimestamp(readings(j).clock)
  }

  /** One attempt adds its time, or nothing. */
  lemma StepAdds(r: Row, t: Instant, rd: Reading)
    ensures var next := r.Step(t, rd).0;
      if rd.trouble.Fine? && !r.Seen(rd.clock) then next == Row(r.Record(t).last, r.at + [t]) else next.at == r.at
    ensures rd.trouble.Fine? ==> r.Step(t, rd).1
  {}

  lemma {:induction false} TimesAddAtMost(r: Row, times: seq<Instant>, readings: nat -> Reading, k: nat)
    requires k <= |times|
    ensures |TimesRow(r, times, readings, k).at| <= |r.at| + |times| - k
    decreases |times| - k
  {
    if k < |times| {
      StepAdds(r, times[k], readings(k));
      TimesAddAtMost(r.Step(times[k], readings(k)).0, times, readings, k + 1);
    }
  }

  lemma NewStep(r: Row, times: seq<Instant>, readings: nat -> Reading, k: nat) returns (next: Row)
    requires k < |times| && readings(k).trouble.Fine? && !r.Seen(readings(k).clock)
    requires r.last.Some? && MinuteOf(r.last.value) <= MinuteOf(times[k])
    ensures next.last.Some? && MinuteOf(next.last.value) == MinuteOf(times[k])
    ensures TimesRow(r, times, readings, k) == TimesRow(next, times, readings, k + 1)
    ensures next.at == r.at + [times[k]] && next.at + times[k + 1..] == r.at + times[k..]
  {
    StepAdds(r, times[k], readings(k));
    next := r.Step(times[k], readings(k)).0;
  }

  lemma PassesStep(last: Instant, next: Instant, times: seq<Instant>, readings: nat -> Reading, k: nat)
    requires k < |times| && MinuteOf(next) == MinuteOf(times[k])
    ensures EachPasses(last, times, readings, k) <==>
      && readings(k).trouble.Fine? && DigestTimestamp(last) != DigestTimestamp(readings(k).clock)
      && EachPasses(next, times, readings, k + 1)
  {
    assert DigestTimestamp(next) == DigestTimestamp(times[k]);
  }

  lemma {:induction false} AllNew(r: Row, times: seq<Instant>, readings: nat -> Reading, k: nat)
    requires k <= |times| && Ascending(times)
    requires r.last.Some? && forall j | k <= j < |times| :: MinuteOf(r.last.value) <= MinuteOf(times[j])
    ensures TimesRow(r, times, readings, k).at == r.at + times[k..] <==> EachPasses(r.last.value, times, readings, k)
    decreases |times| - k
  {
    if k < |times| {
      if readings(k).trouble.Fine? && !r.Seen(readings(k).clock) {
        var next := NewStep(r, times, readings, k);
        PassesStep(r.last.value, next.last.value, times, readings, k);
        AllNew(next, times, readings, k + 1);
      } else {
        MissedStep(r, times, readings, k);
        PassesStep(r.last.value, times[k], times, readings, k);
      }
    }
  }

  lemma MissedStep(r: Row, times: seq<Instant>, readings: nat -> Reading, k: nat)
    requires k < |times| && !(readings(k).trouble.Fine? && !r.Seen(readings(k).clock))
    ensures TimesRow(r, times, readings, k).at != r.at + times[k..]
  {
    StepAdds(r, times[k], readings(k));
    TimesAddAtMost(r.Step(times[k], readings(k)).0, times, readings, k + 1);
    assert |r.at + times[k..]| == |r.at| + |times| - k;
  }

  /**
   * Backfill adds its whole window in order, exactly if no call fails and at no step the stored time - the one
   * found at first, then the time before - has the digest of the clock as that step's check reads it.
   */
  lemma BackfillIsExact(items: seq<CronItem>, rows: Rows, s: Startup, i: nat, last: Instant)
    requires Unique(items, i) && items[i].backfill && !s.lookupFails(i)
    requires Stored(rows, items[i].identifier) == Some(last)
    ensures var times := BackfillWindow(items[i], last, s.now);
      Enqueued(items, rows, s, [], i) == times <==> EachPasses(last, times, s.readings(i), 0)
    ensures BackfilledExactly(items[i], last, s.now, BackfillWindow(items[i], last, s.now))
  {
    WindowOfBackfill(items[i], last, s.now);
    var times := BackfillWindow(items[i], last, s.now);
    SessionRowOf(items, rows, s, [], i);
    WindowMinutes(items[i], last, s.now);
    assert forall j | 0 <= j < |times| :: times[j] in times;
    AllNew(Row(Some(last), []), times, s.readings(i), 0);
    assert [] + times[0..] == times;
  }

  /** The first k steps enqueue, and then a call fails. */
  predicate FailsAt(last: Instant, times: seq<Instant>, readings: nat -> Reading, k: nat)
    requires k < |times|
  {
    && EachPasses(last, times[..k], readings, 0)
    && (|| readings(k).trouble.CheckFails?
        || (!readings(k).trouble.Fine? &&
            DigestTimestamp(if k == 0 then last else times[k - 1]) != DigestTimestamp(readings(k).clock)))
  }

  lemma FailingStep(r: Row, times: seq<Instant>, readings: nat -> Reading, k: nat)
    requires k < |times| && !readings(k).trouble.Fine?
    requires readings(k).trouble.CheckFails? || !r.Seen(readings(k).clock)
    ensures TimesRow(r, times, readings, k).at == r.at
  {}

  lemma {:induction false} PassesThenFails(r: Row, times: seq<Instant>, readings: nat -> Reading, j: nat, k: nat)
    requires j <= k < |times| && Ascending(times)
    requires r.last.Some? && forall i | j <= i < |times| :: MinuteOf(r.last.value) <= MinuteOf(times[i])
    requires EachPasses(r.last.value, times[..k], readings, j)
    requires readings(k).trouble.CheckFails? || (!readings(k).trouble.Fine? &&
      DigestTimestamp(if k == j then r.last.value else times[k - 1]) != DigestTimestamp(readings(k).clock))
    ensures TimesRow(r, times, readings, j).at == r.at + times[j..k]
    decreases k - j
  {
    if j == k {
      FailingStep(r, times, readings, k);
    } else {
      PassesStep(r.last.value, times[j], times[..k], readings, j);
      var next := NewStep(r, times, readings, j);
      PassesStep(r.last.value, next.last.value, times[..k], readings, j);
      assert DigestTimestamp(next.last.value) == DigestTimestamp(times[j]);
      PassesThenFails(next, times, readings, j + 1, k);
      assert next.at == r.at + [times[j]];
      assert [times[j]] + times[j + 1..k] == times[j..k];
    }
  }

  /** The first call that fails ends the backfill of the item: exactly the times before it were enqueued. */
  lemma FailureEndsBackfill(items: seq<CronItem>, rows: Rows, s: Startup, i: nat, last: Instant, k: nat)
    requires Unique(items, i) && items[i].backfill && !s.lookupFails(i)
    requires Stored(rows, items[i].identifier) == Some(last) && k < |BackfillWindow(items[i], last, s.now)|
    requires FailsAt(last, BackfillWindow(items[i], last, s.now), s.readings(i), k)
    ensures Enqueued(items, rows, s, [], i) == BackfillWindow(items[i], last, s.now)[..k]
  {
    var times := BackfillWindow(items[i], last, s.now);
    SessionRowOf(items, rows, s, [], i);
    WindowMinutes(items[i], last, s.now);
    assert forall j | 0 <= j < |times| :: times[j] in times;
    PassesThenFails(Row(Some(last), []), times, s.readings(i), 0, k);
    assert [] + times[0..k] == times[..k];
  }

  lemma DigestsApart(a: Instant, b: Instant)
    requires MinuteOf(a) < MinuteOf(b) < MinuteOf(a) + ALIAS_DAYS * MINUTES_PER_DAY
    ensures DigestTimestamp(a) != DigestTimestamp(b)
  {
    if DigestTimestamp(a) == DigestTimestamp(b) { DigestTellsMinute(MinuteOf(a), MinuteOf(b)); }
  }

  /** The checks read the clock in the minute of the start or later, and within 1827 days of the stored time. */
  predicate InWindow(readings: nat -> Reading, n: nat, last: Instant, now: Instant) {
    forall k | 0 <= k < n ::
      MinuteOf(now) <= MinuteOf(readings(k).clock) < MinuteOf(last) + ALIAS_DAYS * MINUTES_PER_DAY
  }

  lemma InWindowPasses(times: seq<Instant>, readings: nat -> Reading, last: Instant, now: Instant)
    requires MinuteOf(last) < MinuteOf(now) && Ascending(times) && InWindow(readings, |times|, last, now)
    requires forall k | 0 <= k < |times| :: MinuteOf(last) <= MinuteOf(times[k]) <= MinuteOf(now)
    requires forall k | 0 <= k < |times| :: readings(k).trouble.Fine?
    ensures EachPasses(last, times, readings, 0)
  {
    forall j | 0 <= j < |times|
      ensures DigestTimestamp(if j == 0 then last else times[j - 1]) != DigestTimestamp(readings(j).clock)
    {
      assert j > 0 ==> MinuteOf(times[j - 1]) < MinuteOf(times[j]);
      DigestsApart(if j == 0 then last else times[j - 1], readings(j).clock);
    }
  }

  /**
   * The matching whole minutes before now, from the one of the stored time on, and none before the minute in
   * which the backfill period began; each once, ascending.
   */
  ghost predicate BackfilledExactly(item: CronItem, last: Instant, now: Instant, at: seq<Instant>) {
    && (forall t :: t in at <==>
          && t % 60_000_000_000 == 0 && item.Matches(t) && t < now
          && last - 60_000_000_000 < t && now - item.backfillPeriod - 60_000_000_000 < t)
    && (forall j, k | 0 <= j < k < |at| :: at[j] < at[k])
  }

  lemma WindowOfBackfill(item: CronItem, last: Instant, now: Instant)
    ensures BackfilledExactly(item, last, now, BackfillWindow(item, last, now))
  {
    WindowIsExact(item, BackfillStart(item, last, now), now);
  }

  /** So it does if the stored time is in an earlier minute, fewer than 1827 days back, however long it takes. */
  lemma BackfillInWindow(items: seq<CronItem>, rows: Rows, s: Startup, i: nat, last: Instant)
    requires Unique(items, i) && items[i].backfill && !s.lookupFails(i)
    requires Stored(rows, items[i].identifier) == Some(last) && MinuteOf(last) < MinuteOf(s.now)
    requires InWindow(s.readings(i), |BackfillWindow(items[i], last, s.now)|, last, s.now)
    requires forall k | 0 <= k < |BackfillWindow(items[i], last, s.now)| :: s.readings(i)(k).trouble.Fine?
    ensures BackfilledExactly(items[i], last, s.now, Enqueued(items, rows, s, [], i))
  {
    var times := BackfillWindow(items[i], last, s.now);
    WindowOfBackfill(items[i], last, s.now);
    WindowMinutes(items[i], last, s.now);
    assert forall j | 0 <= j < |times| :: times[j] in times;
    InWindowPasses(times, s.readings(i), last, s.now);
    BackfillIsExact(items, rows, s, i, last);
  }
}
