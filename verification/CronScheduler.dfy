/** The scheduler object: its loops, against CronSchedule. */
module CronScheduler {
  import opened Wrappers
  import opened Calendar
  import opened CronSchedule

  class Scheduler {
    const items: seq<CronItem>
    const backfillOnStart: bool
    var running: bool
    var rows: Rows
    var jobs: seq<Entry>

    function Books(): Book
      reads this
    {
      Book(rows, jobs)
    }

    constructor (items: seq<CronItem>, backfillOnStart: bool, rows: Rows, jobs: seq<Entry>)
      ensures this.items == items && this.backfillOnStart == backfillOnStart && !running
      ensures Books() == Book(rows, jobs)
    {
      this.items, this.backfillOnStart, this.rows, this.jobs := items, backfillOnStart, rows, jobs;
      running := false;
    }

    method IsTaskAlreadyScheduled(identifier: string, clock: Instant) returns (exists_: bool)
      ensures exists_ <==>
        identifier in rows && exists t :: rows[identifier] == Some(t) && DigestTimestamp(t) == DigestTimestamp(clock)
    {
      var digestTime := DigestTimestamp(clock);
      exists_ := false;
      if identifier in rows {
        match rows[identifier] {
          case Some(t) => exists_ := DigestTimestamp(t) == digestTime;
          case None =>
        }
      }
    }

    method RecordScheduledTask(identifier: string, at: Instant)
      modifies this`rows
      ensures rows == Recorded(old(rows), identifier, at)
      ensures NotBack(old(rows), rows)
    {
      if identifier in rows && (rows[identifier].None? || rows[identifier].value < at) {
        rows := rows[identifier := Some(at)];
      }
    }

    /** Also the body of the backfill loop. */
    method ScheduleTask(identifier: string, at: Instant, r: Reading) returns (ok: bool)
      modifies this`rows, this`jobs
      ensures (Books(), ok) == Scheduled(old(Books()), identifier, at, r)
      // Without a failing call: enqueued at that very time, unless the stored time has the digest of the clock
      ensures
        var last := if identifier in old(rows) then old(rows)[identifier] else None;
        var seen := last.Some? && DigestTimestamp(last.value) == DigestTimestamp(r.clock); (
        && (ok <==> !r.trouble.CheckFails? && (seen || r.trouble.Fine?))
        && jobs == (if r.trouble.Fine? && !seen then old(jobs) + [Entry(identifier, at)] else old(jobs))
        && rows.Keys == old(rows.Keys)
        && (forall id | id in rows && id != identifier :: rows[id] == old(rows)[id])
        && (identifier in rows ==>
              var record := (r.trouble.Fine? || r.trouble.EnqueueFails?) && !seen && (last.None? || last.value < at);
              rows[identifier] == if record then Some(at) else last))
    {
      if r.trouble.CheckFails? {
        return false;
      }
      var already := IsTaskAlreadyScheduled(identifier, r.clock);
      if already {
        return true;
      }
      if r.trouble.RecordFails? {
        return false;
      }
      RecordScheduledTask(identifier, at);
      if r.trouble.EnqueueFails? {
        return false;
      }
      jobs := jobs + [Entry(identifier, at)];
      return true;
    }

    method ProcessScheduledTasks(t: Tick)
      modifies this`rows, this`jobs
      ensures Books() == TickFrom(items, old(Books()), t, 0)
    {
      for k := 0 to |items|
        invariant TickFrom(items, Books(), t, k) == TickFrom(items, old(Books()), t, 0)
      {
        if items[k].Matches(t.now) {
          var _ := ScheduleTask(items[k].identifier, t.now, t.readings(k));
        }
      }
    }

    /** Exactly the matching whole minutes of the window, ascending. */
    static method GetScheduleTimesInRange(item: CronItem, start: Instant, end: Instant) returns (times: seq<Instant>)
      ensures times == Times(item, Truncate(start), end)
      ensures MatchesOfWindow(item, start, end, times)
    {
      times := [];
      var current := Truncate(start);
      ghost var all := Times(item, current, end);
      assert times + Times(item, current, end) == all;
      while current < end
        invariant times + Times(item, current, end) == all
        decreases end - current
      {
        ghost var rest := Times(item, current + MINUTE, end);
        if item.Matches(current) {
          assert Times(item, current, end) == [current] + rest;
          times := times + [current];
        } else {
          assert Times(item, current, end) == rest;
        }
        assert times + rest == all;
        current := current + MINUTE;
      }
      assert Times(item, current, end) == [];
      WindowIsExact(item, start, end);
    }

    method BackfillOne(item: CronItem, start: Instant, end: Instant, readings: nat -> Reading) returns (ok: bool)
      modifies this`rows, this`jobs
      ensures (Books(), ok)
        == BackfillTimes(old(Books()), item.identifier, Times(item, Truncate(start), end), readings, 0)
    {
      var times := GetScheduleTimesInRange(item, start, end);
      for k := 0 to |times|
        invariant BackfillTimes(Books(), item.identifier, times, readings, k)
          == BackfillTimes(old(Books()), item.identifier, times, readings, 0)
      {
        var fine := ScheduleTask(item.identifier, times[k], readings(k));
        if !fine {
          return false;
        }
      }
      return true;
    }

    method PerformBackfill(s: Startup)
      modifies this`rows, this`jobs
      ensures Books() == BackfillFrom(items, old(Books()), s, 0)
    {
      for k := 0 to |items|
        invariant BackfillFrom(items, Books(), s, k) == BackfillFrom(items, old(Books()), s, 0)
      {
        var item := items[k];
        ghost var was := Books();
        if !item.backfill || s.lookupFails(k) {
          assert was == BackfillItem(was, item, s, k);
          continue;
        }
        var last := if item.identifier in rows then rows[item.identifier] else None;
        if last.None? {
          assert was == BackfillItem(was, item, s, k);
          continue;
        }
        var start := last.value;
        if start < s.now - item.backfillPeriod {
          start := s.now - item.backfillPeriod;
        }
        var _ := BackfillOne(item, start, s.now, s.readings(k));
        assert Books() == BackfillItem(was, item, s, k);
      }
    }

    /** Inserts the identifiers in turn; `n` rows are there when one fails or all are. */
    method RegisterKnownCrontabs(fails: nat -> bool) returns (n: nat)
      modifies this`rows
      ensures n <= |items| && rows == Registered(items[..n], old(rows))
      ensures (n < |items| ==> fails(n)) && forall k | 0 <= k < n :: !fails(k)
      ensures forall id :: id in rows <==> id in old(rows) || exists k | 0 <= k < n :: items[k].identifier == id
      ensures forall id | id in rows :: rows[id] == if id in old(rows) then old(rows)[id] else None
    {
      n := 0;
      while n < |items| && !fails(n)
        invariant n <= |items| && rows == Registered(items[..n], old(rows))
        invariant forall k | 0 <= k < n :: !fails(k)
      {
        assert items[..n + 1] == items[..n] + [items[n]];
        if items[n].identifier !in rows {
          rows := rows[items[n].identifier := None];
        }
        n := n + 1;
      }
    }

    /**
     * A second start is refused and changes nothing; one that cannot register its items leaves the scheduler
     * stopped.
     */
    method Start(s: Startup, registerFails: nat -> bool) returns (ok: bool)
      modifies this
      ensures old(running) ==> !ok && running && Books() == old(Books())
      ensures !old(running) ==> ok == running == forall k | 0 <= k < |items| :: !registerFails(k)
      ensures ok ==>
        var b := Book(Registered(items, old(rows)), old(jobs));
        Books() == if backfillOnStart then BackfillFrom(items, b, s, 0) else b
      ensures !ok ==> jobs == old(jobs) && NotBack(old(rows), rows)
    {
      if running {
        return false;
      }
      running := true;
      var n := RegisterKnownCrontabs(registerFails);
      if n < |items| {
        running := false;
        return false;
      }
      assert items[..n] == items;
      if backfillOnStart {
        PerformBackfill(s);
      }
      return true;
    }

    method Stop()
      modifies this`running
      ensures !running
    {
      running := false;
    }
  }
}
