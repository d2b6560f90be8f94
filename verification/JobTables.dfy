/** The two tables of the job queue, and each SQL statement as a function on them. */
module JobTables {
  import opened Wrappers

  type JobId = nat
  type WorkerId = string

  /** Microseconds, the resolution of a database timestamp. */
  type Time = int

  const SECOND: Time := 1_000_000
  const LOCK_EXPIRY: Time := 4 * 60 * 60 * SECOND

  datatype Job = Job(
    queueName: Option<string>,
    task: string,
    priority: int,
    runAt: Time,
    attempts: nat,
    maxAttempts: nat,
    flags: set<string>,
    lastError: Option<string>,
    lockedBy: Option<WorkerId>,
    lockedAt: Option<Time>)

  datatype QueueRow = QueueRow(lockedBy: Option<WorkerId>, lockedAt: Option<Time>)

  const FREE: QueueRow := QueueRow(None, None)

  datatype Tables = Tables(jobs: map<JobId, Job>, queues: map<string, QueueRow>)

  // Back-off: exp(least(attempts, 10)) seconds, cast through text to an interval

  /** e, scaled to an integer. */
  const E := 2_718_281_828_459
  const E_SCALE := 1_000_000_000_000

  /** exp(0) to exp(10) in seconds, rounded to microseconds. */
  function Backoff(attempts: nat): (r: Time)
    ensures r >= SECOND
  {
    match attempts
    case 0 => 1_000_000
    case 1 => 2_718_282
    case 2 => 7_389_056
    case 3 => 20_085_537
    case 4 => 54_598_150
    case 5 => 148_413_159
    case 6 => 403_428_793
    case 7 => 1_096_633_158
    case 8 => 2_980_957_987
    case 9 => 8_103_083_928
    case _ => 22_026_465_795
  }

  /** Each back-off is e times the one before, to within two microseconds, up to the tenth; then it stays. */
  lemma BackoffIsExponential(n: nat)
    ensures Backoff(0) == SECOND
    ensures n < 10 ==> -2 * E_SCALE <= E * Backoff(n) - E_SCALE * Backoff(n + 1) <= 2 * E_SCALE
    ensures n >= 10 ==> Backoff(n) == Backoff(10)
  {}

  lemma BackoffMonotone(a: nat, b: nat)
    requires a <= b
    ensures Backoff(a) <= Backoff(b)
  {}

  // GetJob

  /** The rows the `where` clause of GetJob keeps; row locks are not looked at here. */
  predicate CanTake(db: Tables, now: Time, tasks: set<string>, forbidden: set<string>, id: JobId) {
    id in db.jobs &&
    var job := db.jobs[id];
    && job.lockedAt.None?
    && QueueFree(db.queues, job.queueName)
    && job.runAt <= now
    && job.attempts < job.maxAttempts
    && (tasks == {} || job.task in tasks)
    && job.flags !! forbidden
  }

  predicate QueueFree(queues: map<string, QueueRow>, name: Option<string>) {
    match name
    case None => true
    case Some(q) => q in queues && queues[q].lockedAt.None?
  }

  /** order by priority asc, run_at asc, id asc */
  predicate Before(jobs: map<JobId, Job>, a: JobId, b: JobId)
    requires a in jobs && b in jobs
  {
    var x, y := jobs[a], jobs[b];
    || x.priority < y.priority
    || (x.priority == y.priority && x.runAt < y.runAt)
    || (x.priority == y.priority && x.runAt == y.runAt && a < b)
  }

  /** The update half of GetJob: locks the job and its queue row, and counts the attempt. */
  function Take(db: Tables, worker: WorkerId, id: JobId, now: Time): Tables
    requires id in db.jobs
  {
    var job := db.jobs[id];
    Tables(
      db.jobs[id := job.(attempts := job.attempts + 1, lockedBy := Some(worker), lockedAt := Some(now))],
      LockQueue(db.queues, job.queueName, worker, now))
  }

  function LockQueue(
    queues: map<string, QueueRow>, name: Option<string>, worker: WorkerId, now: Time): map<string, QueueRow> {
    match name
    case None => queues
    case Some(q) => if q in queues then queues[q := QueueRow(Some(worker), Some(now))] else queues
  }

  /** Both release statements clear a queue row only while the releasing worker holds it. */
  function UnlockQueue(queues: map<string, QueueRow>, name: Option<string>, worker: WorkerId): map<string, QueueRow> {
    match name
    case None => queues
    case Some(q) => if q in queues && queues[q].lockedBy == Some(worker) then queues[q := FREE] else queues
  }

  // CompleteJob and FailJob

  /** The delete does not look at locked_by. */
  function Complete(db: Tables, worker: WorkerId, id: JobId): Tables {
    if id in db.jobs then
      Tables(db.jobs - {id}, UnlockQueue(db.queues, db.jobs[id].queueName, worker))
    else
      db
  }

  predicate FailMatches(db: Tables, worker: WorkerId, id: JobId) {
    id in db.jobs && db.jobs[id].lockedBy == Some(worker)
  }

  function Fail(db: Tables, worker: WorkerId, id: JobId, message: string, now: Time): Tables {
    if FailMatches(db, worker, id) then
      var job := db.jobs[id];
      Tables(
        db.jobs[id := job.(
          lastError := Some(message),
          runAt := Max(now, job.runAt) + Backoff(job.attempts),
          lockedBy := None,
          lockedAt := None)],
        UnlockQueue(db.queues, job.queueName, worker))
    else
      db
  }

  function Max(a: Time, b: Time): Time {
    if a < b then b else a
  }

  // ResetLockedAt and the administrator's CompleteJobs

  /** locked_at < now - interval '4 hours'; a null locked_at never qualifies. */
  predicate Expired(lockedAt: Option<Time>, now: Time) {
    lockedAt.Some? && lockedAt.value < now - LOCK_EXPIRY
  }

  function ResetLocks(db: Tables, now: Time): Tables {
    Tables(
      map id | id in db.jobs ::
        if Expired(db.jobs[id].lockedAt, now)
        then db.jobs[id].(lockedBy := None, lockedAt := None)
        else db.jobs[id],
      map q | q in db.queues :: if Expired(db.queues[q].lockedAt, now) then FREE else db.queues[q])
  }

  /** The rows CompleteJobs deletes: those asked for that are unlocked or whose lock has expired. */
  function Deletable(db: Tables, ids: set<JobId>, now: Time): set<JobId> {
    set id | id in ids && id in db.jobs &&
             (db.jobs[id].lockedBy.None? || Expired(db.jobs[id].lockedAt, now))
  }

  /** No queue row is touched. */
  function CompleteJobs(db: Tables, ids: set<JobId>, now: Time): Tables {
    db.(jobs := db.jobs - Deletable(db, ids, now))
  }

  // What the statements keep

  /** The two lock columns of a row are set and cleared together. */
  ghost predicate Paired(db: Tables) {
    && (forall id | id in db.jobs :: db.jobs[id].lockedBy.Some? == db.jobs[id].lockedAt.Some?)
    && (forall q | q in db.queues :: db.queues[q].lockedBy.Some? == db.queues[q].lockedAt.Some?)
  }

  ghost predicate LockedIn(db: Tables, id: JobId, queue: Option<string>) {
    id in db.jobs && db.jobs[id].lockedBy.Some? && queue.Some? && db.jobs[id].queueName == queue
  }

  /** A locked job of a named queue has the same lock as its queue row. */
  ghost predicate QueueMirrorsJob(db: Tables) {
    forall id | id in db.jobs && LockedIn(db, id, db.jobs[id].queueName) ::
      && db.jobs[id].queueName.value in db.queues
      && db.queues[db.jobs[id].queueName.value] == QueueRow(db.jobs[id].lockedBy, db.jobs[id].lockedAt)
  }

  ghost predicate OneLockedJobPerQueue(db: Tables) {
    forall a, b | a in db.jobs && LockedIn(db, a, db.jobs[a].queueName) && LockedIn(db, b, db.jobs[a].queueName) ::
      a == b
  }

  ghost predicate TablesInv(db: Tables) {
    Paired(db) && QueueMirrorsJob(db) && OneLockedJobPerQueue(db)
  }

  /** If the worker holds the queue row, no job but `id` is locked in the queue. */
  ghost predicate HoldsQueueFor(db: Tables, worker: WorkerId, queue: Option<string>, id: JobId) {
    queue.Some? && queue.value in db.queues && db.queues[queue.value].lockedBy == Some(worker) ==>
      forall x | LockedIn(db, x, queue) :: x == id
  }

  lemma TakeKeepsTables(db: Tables, worker: WorkerId, id: JobId, now: Time)
    requires TablesInv(db) && id in db.jobs && db.jobs[id].lockedBy.None? && QueueFree(db.queues, db.jobs[id].queueName)
    ensures TablesInv(Take(db, worker, id, now))
  {
    var db' := Take(db, worker, id, now);
    forall x, q | LockedIn(db', x, q) ensures x == id || LockedIn(db, x, q) {}
  }

  lemma FailKeepsTables(db: Tables, worker: WorkerId, id: JobId, message: string, now: Time)
    requires TablesInv(db)
    ensures TablesInv(Fail(db, worker, id, message, now))
  {
    var db' := Fail(db, worker, id, message, now);
    forall x, q | LockedIn(db', x, q) ensures LockedIn(db, x, q) {}
  }

  /** The delete ignores locked_by, so what it needs is that the queue lock it clears guards this job. */
  lemma CompleteKeepsTables(db: Tables, worker: WorkerId, id: JobId)
    requires TablesInv(db) && (id in db.jobs ==> HoldsQueueFor(db, worker, db.jobs[id].queueName, id))
    ensures TablesInv(Complete(db, worker, id))
  {
    var db' := Complete(db, worker, id);
    forall x, q | LockedIn(db', x, q) ensures LockedIn(db, x, q) {}
  }

  lemma ResetKeepsTables(db: Tables, now: Time)
    requires TablesInv(db)
    ensures TablesInv(ResetLocks(db, now))
  {
    var db' := ResetLocks(db, now);
    forall x, q | LockedIn(db', x, q) ensures LockedIn(db, x, q) {}
  }

  lemma AdminKeepsTables(db: Tables, ids: set<JobId>, now: Time)
    requires TablesInv(db)
    ensures TablesInv(CompleteJobs(db, ids, now))
  {
    var db' := CompleteJobs(db, ids, now);
    forall x, q | LockedIn(db', x, q) ensures LockedIn(db, x, q) {}
  }
}
