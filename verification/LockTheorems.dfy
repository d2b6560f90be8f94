/** The properties of the job lock protocol, over every run from an empty job table. */
module LockTheorems {
  import opened Wrappers
  import opened JobTables
  import opened LockProtocol
  import opened JobHistory
  import Database

  /** The handouts in the log are the turns of the histories. */
  ghost predicate LogOk(s: State) {
    && (forall id | id in s.history :: multiset(s.log)[id] == |s.history[id].turns|)
    && (forall id | id in s.log :: id in s.history)
  }

  lemma CommitKeepsLog(s: State, w: WorkerId)
    requires LockInv(s) && LogOk(s) && Enabled(s, CommitPick(w))
    ensures LogOk(Commit(s, w))
  {}

  lemma StepKeepsLog(s: State, step: Step)
    requires LockInv(s) && LogOk(s) && Enabled(s, step)
    ensures LogOk(Next(s, step))
  {
    match step
    case CommitPick(w) => CommitKeepsLog(s, w);
    case Insert(id, _) => assert id !in multiset(s.log);
    case _ =>
  }

  lemma {:induction false} RunKeeps(s: State, steps: seq<Step>)
    requires IsRun(s, steps) && LockInv(s) && HistoryInv(s) && LogOk(s)
    ensures LockInv(Exec(s, steps)) && HistoryInv(Exec(s, steps)) && LogOk(Exec(s, steps))
    decreases |steps|
  {
    if steps != [] {
      StepKeepsLocks(s, steps[0]);
      StepKeepsHistory(s, steps[0]);
      StepKeepsLog(s, steps[0]);
      RunKeeps(Next(s, steps[0]), steps[1..]);
    }
  }

  lemma Reachable(s: State, steps: seq<Step>)
    requires Init(s) && IsRun(s, steps)
    ensures LockInv(Exec(s, steps)) && HistoryInv(Exec(s, steps)) && LogOk(Exec(s, steps))
  {
    RunKeeps(s, steps);
  }

  /** Mutual exclusion on named queues, whatever crashes, expiries and late releases occur. */
  lemma OneLockPerQueue(s: State, steps: seq<Step>, a: JobId, b: JobId, q: string)
    requires Init(s) && IsRun(s, steps)
    requires LockedIn(Exec(s, steps).db, a, Some(q))
    ensures var db := Exec(s, steps).db;
      && q in db.queues && db.queues[q] == QueueRow(db.jobs[a].lockedBy, db.jobs[a].lockedAt)
      && (LockedIn(db, b, Some(q)) ==> a == b)
  {
    Reachable(s, steps);
  }

  /** Between two handouts of a job its holder failed it and the back-off passed, or 4 hours did. */
  lemma HandoutsAreSpaced(s: State, steps: seq<Step>, id: JobId, i: nat)
    requires Init(s) && IsRun(s, steps)
    requires id in Exec(s, steps).history && i + 1 < |Exec(s, steps).history[id].turns|
    ensures var first, next := Exec(s, steps).history[id].turns[i], Exec(s, steps).history[id].turns[i + 1];
      || (first.failedAt.Some? && first.at <= first.failedAt.value && next.at >= first.failedAt.value + Backoff(i + 1))
      || next.at > first.at + LOCK_EXPIRY
  {
    Reachable(s, steps);
    assert Spaced(Exec(s, steps).history[id], i + 1);
  }

  /** No job is handed out under an unexpired lock: within 4 hours its holder has failed it before. */
  lemma NoHandoutUnderLock(s: State, steps: seq<Step>, id: JobId, i: nat)
    requires Init(s) && IsRun(s, steps)
    requires id in Exec(s, steps).history && i + 1 < |Exec(s, steps).history[id].turns|
    requires var h := Exec(s, steps).history[id]; h.turns[i + 1].at <= h.turns[i].at + LOCK_EXPIRY
    ensures var h := Exec(s, steps).history[id];
      h.turns[i].failedAt.Some? && h.turns[i].at <= h.turns[i].failedAt.value < h.turns[i + 1].at
  {
    HandoutsAreSpaced(s, steps, id, i);
  }

  /** No handout is earlier than the insertion's run_at and every back-off before it together. */
  lemma BackoffsAccumulate(s: State, steps: seq<Step>, id: JobId)
    requires Init(s) && IsRun(s, steps) && id in Exec(s, steps).history
    ensures var t := Exec(s, steps); var h := t.history[id];
      && (forall i | 0 <= i < |h.turns| :: h.turns[i].at >= h.firstRunAt + BackoffSum(Fails(h.turns, i)))
      && (id in t.db.jobs ==> t.db.jobs[id].runAt >= h.firstRunAt + BackoffSum(Fails(h.turns, |h.turns|)))
  {
    Reachable(s, steps);
    var t := Exec(s, steps);
    forall i | 0 <= i < |t.history[id].turns|
      ensures t.history[id].turns[i].at >= t.history[id].firstRunAt + BackoffSum(Fails(t.history[id].turns, i))
    {
      assert BackedOff(t.history[id], i);
    }
    assert id in t.db.jobs ==> RowOk(t, id);
  }

  ghost function FailedEvents(turns: seq<Turn>): nat {
    if turns == [] then 0 else turns[0].gaveUp + FailedEvents(turns[1..])
  }

  lemma {:induction false} SilentTurns(turns: seq<Turn>)
    requires forall i | 0 <= i < |turns| - 1 :: turns[i].gaveUp == 0
    ensures FailedEvents(turns) == if turns == [] then 0 else turns[|turns| - 1].gaveUp
  {
    if |turns| > 1 {
      SilentTurns(turns[1..]);
    }
  }

  /**
   * A job is handed out as often as its attempts say, at most max_attempts times; job:failed is emitted at most
   * once.
   */
  lemma AttemptsCountHandouts(s: State, steps: seq<Step>, id: JobId)
    requires Init(s) && IsRun(s, steps) && id in Exec(s, steps).history
    ensures var t := Exec(s, steps); var h := t.history[id];
      && multiset(t.log)[id] == |h.turns| <= h.maxAttempts
      && (id in t.db.jobs ==> t.db.jobs[id].attempts == |h.turns| && t.db.jobs[id].maxAttempts == h.maxAttempts)
      && FailedEvents(h.turns) <= 1
      && (FailedEvents(h.turns) == 1 ==> |h.turns| == h.maxAttempts)
  {
    Reachable(s, steps);
    var t := Exec(s, steps);
    var h := t.history[id];
    forall i | 0 <= i < |h.turns|
      ensures h.turns[i].gaveUp <= 1 && (i < |h.turns| - 1 ==> h.turns[i].gaveUp == 0)
      ensures h.turns[i].gaveUp == 1 ==> i + 1 == h.maxAttempts
    {
      assert GivesUpLast(h, i);
    }
    SilentTurns(h.turns);
    assert id in t.db.jobs ==> RowOk(t, id);
  }

  lemma {:induction false} HistoriesGrow(s: State, steps: seq<Step>, id: JobId)
    requires IsRun(s, steps) && id in s.history
    ensures id in Exec(s, steps).history
    ensures Exec(s, steps).history[id].maxAttempts == s.history[id].maxAttempts
    ensures |Exec(s, steps).history[id].turns| >= |s.history[id].turns|
    decreases |steps|
  {
    if steps != [] {
      HistoriesGrow(Next(s, steps[0]), steps[1..], id);
    }
  }

  lemma {:induction false} RunsCompose(s: State, first: seq<Step>, second: seq<Step>)
    requires IsRun(s, first) && IsRun(Exec(s, first), second)
    ensures IsRun(s, first + second) && Exec(s, first + second) == Exec(Exec(s, first), second)
    decreases |first|
  {
    if first == [] {
      assert first + second == second;
    } else {
      RunsCompose(Next(s, first[0]), first[1..], second);
      assert (first + second)[1..] == first[1..] + second;
    }
  }

  /** After job:failed a job is never handed out again, however the run goes on. */
  lemma FailedJobsStayFailed(s: State, first: seq<Step>, second: seq<Step>, id: JobId)
    requires Init(s) && IsRun(s, first) && IsRun(Exec(s, first), second)
    requires id in Exec(s, first).history && FailedEvents(Exec(s, first).history[id].turns) > 0
    ensures multiset(Exec(Exec(s, first), second).log)[id] == multiset(Exec(s, first).log)[id]
  {
    AttemptsCountHandouts(s, first, id);
    HistoriesGrow(Exec(s, first), second, id);
    RunsCompose(s, first, second);
    AttemptsCountHandouts(s, first + second, id);
  }

  /** With no transaction under way, pick and commit together are the one statement of the job store. */
  lemma GetJobIsPickThenCommit(
    s: State, w: WorkerId, tasks: set<string>, forbidden: set<string>, id: JobId, rows: set<string>)
    requires s.picks == map[] && w !in s.active && Database.IsNext(s.db, s.clock, tasks, forbidden, id)
    requires rows == if s.db.jobs[id].queueName.Some? then {s.db.jobs[id].queueName.value} else {}
    ensures var steps := [PickJob(w, id, tasks, forbidden, rows), CommitPick(w)];
      && IsRun(s, steps)
      && Exec(s, steps).db == Take(s.db, w, id, s.clock)
      && Exec(s, steps).picks == map[]
  {
    var pick, commit := PickJob(w, id, tasks, forbidden, rows), CommitPick(w);
    assert [pick, commit][1..] == [commit];
    var t := Next(s, pick);
    assert Exec(t, [commit]) == Exec(Next(t, commit), []);
    assert Exec(s, [pick, commit]) == Exec(t, [commit]);
  }

  // Queue locks that no job stands behind

  ghost predicate OrphanLock(db: Tables, q: string) {
    && q in db.queues && db.queues[q].lockedBy.Some?
    && forall id :: !LockedIn(db, id, Some(q))
  }

  lemma CompleteOrphans(db: Tables, worker: WorkerId, id: JobId, q: string)
    requires TablesInv(db) && !OrphanLock(db, q)
    ensures OrphanLock(Complete(db, worker, id), q) <==>
      LockedIn(db, id, Some(q)) && db.jobs[id].lockedBy != Some(worker)
  {
    var db' := Complete(db, worker, id);
    if x :| LockedIn(db, x, Some(q)) {
      assert x != id ==> LockedIn(db', x, Some(q));
      assert forall y :: LockedIn(db', y, Some(q)) ==> y == x;
    }
  }

  lemma AdminOrphans(db: Tables, ids: set<JobId>, now: Time, q: string)
    requires TablesInv(db) && !OrphanLock(db, q)
    ensures OrphanLock(CompleteJobs(db, ids, now), q) <==>
      exists id | id in ids :: LockedIn(db, id, Some(q)) && Expired(db.jobs[id].lockedAt, now)
  {
    var db' := CompleteJobs(db, ids, now);
    if x :| LockedIn(db, x, Some(q)) {
      assert x !in Deletable(db, ids, now) ==> LockedIn(db', x, Some(q));
      assert forall y :: LockedIn(db', y, Some(q)) ==> y == x;
    }
  }

  lemma FailOrphansNone(db: Tables, worker: WorkerId, id: JobId, message: string, now: Time, q: string)
    requires TablesInv(db) && !OrphanLock(db, q)
    ensures !OrphanLock(Fail(db, worker, id, message, now), q)
  {
    if x :| LockedIn(db, x, Some(q)) {
      assert x != id ==> LockedIn(Fail(db, worker, id, message, now), x, Some(q));
    }
  }

  lemma ResetOrphansNone(db: Tables, now: Time, q: string)
    requires TablesInv(db) && !OrphanLock(db, q)
    ensures !OrphanLock(ResetLocks(db, now), q)
  {
    if x :| LockedIn(db, x, Some(q)) {
      assert !Expired(db.jobs[x].lockedAt, now) ==> LockedIn(ResetLocks(db, now), x, Some(q));
    }
  }

  lemma TakeOrphansNone(db: Tables, worker: WorkerId, id: JobId, now: Time, q: string)
    requires id in db.jobs && db.jobs[id].lockedBy.None? && !OrphanLock(db, q)
    ensures !OrphanLock(Take(db, worker, id, now), q)
  {
    assert LockedIn(Take(db, worker, id, now), id, db.jobs[id].queueName) || db.jobs[id].queueName.None?;
    if x :| LockedIn(db, x, Some(q)) {
      assert LockedIn(Take(db, worker, id, now), x, Some(q));
    }
  }

  /**
   * It arises exactly when the locked job of the queue is deleted by a worker that has lost it, or by the
   * administrator after expiry.
   */
  lemma OrphanArises(s: State, step: Step, q: string)
    requires LockInv(s) && Enabled(s, step) && !OrphanLock(s.db, q)
    ensures OrphanLock(Next(s, step).db, q) <==>
      || (step.CompleteJob? && LockedIn(s.db, s.active[step.worker].job, Some(q)) &&
          s.db.jobs[s.active[step.worker].job].lockedBy != Some(step.worker))
      || (step.AdminComplete? && exists id | id in step.ids ::
        LockedIn(s.db, id, Some(q)) && Expired(s.db.jobs[id].lockedAt, s.clock))
  {
    match step
    case CommitPick(w) => assert PickOk(s, w); TakeOrphansNone(s.db, w, s.picks[w].job, s.picks[w].at, q);
    case FailJob(w, message) => FailOrphansNone(s.db, w, s.active[w].job, message, s.clock, q);
    case CompleteJob(w) => CompleteOrphans(s.db, w, s.active[w].job, q);
    case ResetLockedAt => ResetOrphansNone(s.db, s.clock, q);
    case AdminComplete(ids) => AdminOrphans(s.db, ids, s.clock, q);
    case Insert(id, job) =>
      if x :| LockedIn(s.db, x, Some(q)) { assert LockedIn(Next(s, step).db, x, Some(q)); }
    case _ =>
  }

  /** Only the expiry of its lock frees the queue again: not the worker whose name is in the lock, nor any other. */
  lemma OrphanLeaves(s: State, step: Step, q: string)
    requires LockInv(s) && Enabled(s, step) && OrphanLock(s.db, q)
    ensures OrphanLock(Next(s, step).db, q) <==> !(step.ResetLockedAt? && Expired(s.db.queues[q].lockedAt, s.clock))
  {
    var t := Next(s, step);
    match step {
      case CommitPick(w) => assert PickOk(s, w);
      case CompleteJob(w) => assert ActiveOk(s, w) && !LockedIn(s.db, s.active[w].job, Some(q));
      case FailJob(w, _) => assert !LockedIn(s.db, s.active[w].job, Some(q));
      case _ =>
    }
    assert !step.ResetLockedAt? ==> q in t.db.queues && t.db.queues[q] == s.db.queues[q];
    forall id ensures LockedIn(t.db, id, Some(q)) ==> LockedIn(s.db, id, Some(q)) {}
  }

  /**
   * After a reset no lock is older than 4 hours, so a queue is not held up by an older one. Nothing but the two
   * columns of an older lock changes.
   */
  lemma ResetBoundsLocks(s: State)
    requires LockInv(s)
    ensures var db := Next(s, ResetLockedAt).db;
      && (forall q | q in db.queues && db.queues[q].lockedBy.Some? ::
            db.queues[q].lockedAt.Some? && db.queues[q].lockedAt.value >= s.clock - LOCK_EXPIRY)
      && (forall id | id in db.jobs && db.jobs[id].lockedBy.Some? ::
            db.jobs[id].lockedAt.Some? && db.jobs[id].lockedAt.value >= s.clock - LOCK_EXPIRY)
      && (forall q | q in s.db.queues && !Expired(s.db.queues[q].lockedAt, s.clock) :: db.queues[q] == s.db.queues[q])
      && (forall id | id in s.db.jobs && !Expired(s.db.jobs[id].lockedAt, s.clock) :: db.jobs[id] == s.db.jobs[id])
      && db.jobs.Keys == s.db.jobs.Keys && db.queues.Keys == s.db.queues.Keys
      && (forall id | id in s.db.jobs :: s.db.jobs[id] ==
            db.jobs[id].(lockedBy := s.db.jobs[id].lockedBy, lockedAt := s.db.jobs[id].lockedAt))
  {}
}
