/** The job tables as the statements update them in place, and the single-goroutine worker loop over them. */
module Database {
  import opened Wrappers
  import opened JobTables

  /** What GetJob selects: an eligible row that comes before every other one. */
  ghost predicate IsNext(db: Tables, now: Time, tasks: set<string>, forbidden: set<string>, id: JobId) {
    && CanTake(db, now, tasks, forbidden, id)
    && forall x | CanTake(db, now, tasks, forbidden, x) && x != id :: Before(db.jobs, id, x)
  }

  lemma NextRow(db: Tables, now: Time, tasks: set<string>, forbidden: set<string>, id: JobId)
    requires CanTake(db, now, tasks, forbidden, id)
    ensures var job := db.jobs[id];
      && job.lockedAt == None && job.runAt <= now && job.attempts < job.maxAttempts
      && (tasks == {} || job.task in tasks) && (forall f | f in forbidden :: f !in job.flags)
      && (job.queueName.Some? ==>
            job.queueName.value in db.queues && db.queues[job.queueName.value].lockedAt == None)
  {}

  /** Why a row is not eligible. */
  lemma PassedOver(db: Tables, now: Time, tasks: set<string>, forbidden: set<string>, x: JobId)
    requires x in db.jobs && !CanTake(db, now, tasks, forbidden, x)
    ensures var job := db.jobs[x];
      || job.lockedAt.Some? || job.runAt > now || job.attempts >= job.maxAttempts
      || (tasks != {} && job.task !in tasks) || (exists f :: f in forbidden && f in job.flags)
      || (job.queueName.Some? &&
            (job.queueName.value in db.queues ==> db.queues[job.queueName.value].lockedAt.Some?))
  {
    var job := db.jobs[x];
    if !(job.flags !! forbidden) {
      var f :| f in job.flags && f in forbidden;
    }
  }

  class JobStore {
    var jobs: map<JobId, Job>
    var queues: map<string, QueueRow>
    var clock: Time

    ghost function Contents(): Tables
      reads this
    {
      Tables(jobs, queues)
    }

    /** One statement: the row locks it takes are released when it returns. */
    method GetJob(worker: WorkerId, tasks: set<string>, forbidden: set<string>) returns (found: Option<JobId>)
      modifies this`jobs, this`queues
      ensures found.None? ==> Contents() == old(Contents())
      ensures found.None? ==> forall id :: !CanTake(old(Contents()), clock, tasks, forbidden, id)
      ensures found.Some? ==> IsNext(old(Contents()), clock, tasks, forbidden, found.value)
      ensures found.Some? ==> Contents() == Take(old(Contents()), worker, found.value, clock)
      // What it found
      ensures found.Some? ==> found.value in old(jobs) && var job := old(jobs)[found.value];
        && job.lockedAt == None && job.runAt <= clock && job.attempts < job.maxAttempts
        && (tasks == {} || job.task in tasks) && (forall f | f in forbidden :: f !in job.flags)
        && (job.queueName.Some? ==>
              job.queueName.value in old(queues) && old(queues)[job.queueName.value].lockedAt == None)
      // Every other row is not eligible, or comes later
      ensures forall x | x in old(jobs) && found != Some(x) :: var job := old(jobs)[x]; (
        || job.lockedAt.Some? || job.runAt > clock || job.attempts >= job.maxAttempts
        || (tasks != {} && job.task !in tasks) || (exists f :: f in forbidden && f in job.flags)
        || (job.queueName.Some? &&
              (job.queueName.value in old(queues) ==> old(queues)[job.queueName.value].lockedAt.Some?))
        || (found.Some? && var first := old(jobs)[found.value];
              && first.priority <= job.priority
              && (first.priority == job.priority ==> first.runAt <= job.runAt)
              && (first.priority == job.priority && first.runAt == job.runAt ==> found.value < x)))
      // What it changed
      ensures found.Some? ==> var job := old(jobs)[found.value];
        && jobs == old(jobs)[found.value :=
             job.(attempts := job.attempts + 1, lockedBy := Some(worker), lockedAt := Some(clock))]
        && queues == if job.queueName.None? then old(queues)
                     else old(queues)[job.queueName.value := QueueRow(Some(worker), Some(clock))]
    {
      var db := Tables(jobs, queues);
      found := None;
      var rows := jobs.Keys;
      while rows != {}
        invariant rows <= jobs.Keys && unchanged(this)
        invariant found.None? ==> forall id | CanTake(db, clock, tasks, forbidden, id) :: id in rows
        invariant found.Some? ==> CanTake(db, clock, tasks, forbidden, found.value)
        invariant found.Some? ==> forall id | CanTake(db, clock, tasks, forbidden, id) && id != found.value ::
          id in rows || Before(jobs, found.value, id)
        decreases rows
      {
        var id :| id in rows;
        rows := rows - {id};
        if CanTake(db, clock, tasks, forbidden, id) && (found.None? || Before(jobs, id, found.value)) {
          found := Some(id);
        }
      }
      forall x | x in jobs && !CanTake(db, clock, tasks, forbidden, x) {
        PassedOver(db, clock, tasks, forbidden, x);
      }
      if found.Some? {
        NextRow(db, clock, tasks, forbidden, found.value);
        db := Take(db, worker, found.value, clock);
        jobs, queues := db.jobs, db.queues;
      }
    }

    method CompleteJob(worker: WorkerId, id: JobId)
      modifies this`jobs, this`queues
      ensures Contents() == Complete(old(Contents()), worker, id)
      ensures jobs == old(jobs) - {id} && queues.Keys == old(queues.Keys)
      ensures forall q | q in old(queues) :: (
        queues[q] ==
          if id in old(jobs) && old(jobs)[id].queueName == Some(q) && old(queues)[q].lockedBy == Some(worker)
          then QueueRow(None, None) else old(queues)[q])
    {
      if id in jobs {
        var queueName := jobs[id].queueName;
        jobs := jobs - {id};
        queues := UnlockQueue(queues, queueName, worker);
      }
    }

    method FailJob(worker: WorkerId, id: JobId, message: string)
      modifies this`jobs, this`queues
      ensures Contents() == Fail(old(Contents()), worker, id, message, clock)
      ensures !(id in old(jobs) && old(jobs)[id].lockedBy == Some(worker)) ==> Contents() == old(Contents())
      ensures id in old(jobs) && old(jobs)[id].lockedBy == Some(worker) ==> var job := old(jobs)[id];
        && jobs == old(jobs)[id := job.(
             runAt := (if job.runAt < clock then clock else job.runAt) + Backoff(job.attempts),
             lastError := Some(message), lockedBy := None, lockedAt := None)]
        && queues.Keys == old(queues.Keys)
        && (forall q | q in old(queues) :: queues[q] ==
              if job.queueName == Some(q) && old(queues)[q].lockedBy == Some(worker)
              then QueueRow(None, None) else old(queues)[q])
    {
      if id in jobs && jobs[id].lockedBy == Some(worker) {
        var job := jobs[id];
        jobs := jobs[id := job.(
          lastError := Some(message),
          runAt := Max(clock, job.runAt) + Backoff(job.attempts),
          lockedBy := None,
          lockedAt := None)];
        queues := UnlockQueue(queues, job.queueName, worker);
      }
    }

    method ResetLockedAt()
      modifies this`jobs, this`queues
      ensures Contents() == ResetLocks(old(Contents()), clock)
      ensures jobs.Keys == old(jobs.Keys) && queues.Keys == old(queues.Keys)
      ensures forall id | id in jobs :: var job := old(jobs)[id]; (
        jobs[id] ==
          if job.lockedAt.Some? && clock - job.lockedAt.value > 14_400_000_000
          then job.(lockedBy := None, lockedAt := None) else job)
      ensures forall q | q in queues :: var row := old(queues)[q]; (
        queues[q] ==
          if row.lockedAt.Some? && clock - row.lockedAt.value > 14_400_000_000 then QueueRow(None, None) else row)
    {
      var ids, names := jobs.Keys, queues.Keys;
      while ids != {}
        invariant ids <= jobs.Keys == old(jobs.Keys) && queues == old(queues)
        invariant forall id | id in jobs ::
          jobs[id] == if id in ids then old(jobs)[id] else ResetLocks(old(Contents()), clock).jobs[id]
        decreases ids
      {
        var id :| id in ids;
        ids := ids - {id};
        if Expired(jobs[id].lockedAt, clock) {
          jobs := jobs[id := jobs[id].(lockedBy := None, lockedAt := None)];
        }
      }
      while names != {}
        invariant names <= queues.Keys == old(queues.Keys) && jobs == ResetLocks(old(Contents()), clock).jobs
        invariant forall q | q in queues ::
          queues[q] == if q in names then old(queues)[q] else ResetLocks(old(Contents()), clock).queues[q]
        decreases names
      {
        var q :| q in names;
        names := names - {q};
        if Expired(queues[q].lockedAt, clock) {
          queues := queues[q := FREE];
        }
      }
    }

    /** Returns what it deleted: comparing it with `ids` shows which jobs another worker still holds. */
    method CompleteJobs(ids: seq<JobId>) returns (deleted: map<JobId, Job>)
      modifies this`jobs
      ensures Contents() == JobTables.CompleteJobs(old(Contents()), (set id | id in ids), clock)
      ensures deleted.Keys !! jobs.Keys && deleted + jobs == old(jobs)
      ensures forall id | id in deleted :: id in ids && id in old(jobs)
      ensures forall id | id in ids && id in old(jobs) :: var job := old(jobs)[id]; (
        id !in deleted <==>
          job.lockedBy.Some? && (job.lockedAt.Some? ==> clock - job.lockedAt.value <= 14_400_000_000))
    {
      deleted := map[];
      for i := 0 to |ids|
        invariant deleted.Keys !! jobs.Keys && deleted + jobs == old(jobs)
        invariant deleted.Keys == Deletable(old(Contents()), (set id | id in ids[..i]), clock)
      {
        var id := ids[i];
        if id in jobs && (jobs[id].lockedBy.None? || Expired(jobs[id].lockedAt, clock)) {
          deleted := deleted[id := jobs[id]];
          jobs := jobs - {id};
        }
      }
      assert ids[..|ids|] == ids;
      assert jobs == old(jobs) - deleted.Keys;
    }
  }

  // One handout and its release, as a whole

  /** The row a failed attempt at time `now` leaves. */
  function FailedRow(job: Job, message: string, now: Time): Job {
    job.(attempts := job.attempts + 1, runAt := now + Backoff(job.attempts + 1), lastError := Some(message),
         lockedBy := None, lockedAt := None)
  }

  datatype Outcome = Succeeds | Errs(message: string)

  /**
   * The environment's choices: by job and attempt for handlers and releases, by iteration for time and
   * interruption.
   */
  datatype Env = Env(
    handler: (JobId, nat) -> Outcome,
    releaseFails: (JobId, nat) -> bool,
    elapsed: nat -> nat,
    interrupted: nat -> bool)

  /** Frozen clock, releases that reach the database, no cancellation. */
  ghost predicate Calm(env: Env) {
    && (forall k :: env.elapsed(k) == 0 && !env.interrupted(k))
    && (forall id, attempt :: !env.releaseFails(id, attempt))
  }

  function OutcomeOf(db: Tables, env: Env, id: JobId): Outcome
    requires id in db.jobs
  {
    env.handler(id, db.jobs[id].attempts + 1)
  }

  /** The tables `db` after the jobs in `ids` were each handed out once and released at time `now`. */
  ghost function After(db: Tables, env: Env, now: Time, ids: set<JobId>): Tables {
    db.(jobs := map id | id in db.jobs && !(id in ids && OutcomeOf(db, env, id).Succeeds?) ::
          if id in ids then FailedRow(db.jobs[id], OutcomeOf(db, env, id).message, now) else db.jobs[id])
  }

  /** What the release statement ProcessJob chooses does, when it reaches the database. */
  function Release(db: Tables, worker: WorkerId, id: JobId, outcome: Outcome, now: Time): Tables {
    match outcome
    case Succeeds => Complete(db, worker, id)
    case Errs(message) => Fail(db, worker, id, message, now)
  }

  lemma HandoutThenRelease(db: Tables, env: Env, now: Time, ids: set<JobId>, worker: WorkerId, id: JobId)
    requires Paired(db) && id in db.jobs && id !in ids && db.jobs[id].runAt <= now
    requires db.jobs[id].lockedAt.None? && QueueFree(db.queues, db.jobs[id].queueName)
    ensures Release(Take(After(db, env, now, ids), worker, id, now), worker, id, OutcomeOf(db, env, id), now)
         == After(db, env, now, ids + {id})
  {}

  /** `handed` is an initial part of the eligible jobs in order: what is not in it comes after all of it. */
  ghost predicate Served(db: Tables, now: Time, tasks: set<string>, forbidden: set<string>, handed: seq<JobId>) {
    && (forall i | 0 <= i < |handed| :: CanTake(db, now, tasks, forbidden, handed[i]))
    && (forall i, k | 0 <= i < k < |handed| :: Before(db.jobs, handed[i], handed[k]))
    && (forall i, x | 0 <= i < |handed| && CanTake(db, now, tasks, forbidden, x) && x !in handed ::
      Before(db.jobs, handed[i], x))
  }

  function Elements(handed: seq<JobId>): set<JobId> {
    set x | x in handed
  }

  /**
   * A released job is gone or backed off, and its queue is free again: what is eligible is what was and is not
   * served.
   */
  lemma EligibleAfter(
    db: Tables, env: Env, now: Time, tasks: set<string>, forbidden: set<string>, ids: set<JobId>, x: JobId)
    ensures CanTake(After(db, env, now, ids), now, tasks, forbidden, x) <==>
      CanTake(db, now, tasks, forbidden, x) && x !in ids
  {}

  lemma ServeNext(
    db: Tables, env: Env, now: Time, tasks: set<string>, forbidden: set<string>, handed: seq<JobId>, id: JobId)
    requires Served(db, now, tasks, forbidden, handed)
    requires IsNext(After(db, env, now, Elements(handed)), now, tasks, forbidden, id)
    ensures id !in handed && CanTake(db, now, tasks, forbidden, id)
    ensures Served(db, now, tasks, forbidden, handed + [id]) && Elements(handed + [id]) == Elements(handed) + {id}
  {
    var rest := After(db, env, now, Elements(handed));
    forall x ensures CanTake(rest, now, tasks, forbidden, x) <==>
      CanTake(db, now, tasks, forbidden, x) && x !in handed {
      EligibleAfter(db, env, now, tasks, forbidden, Elements(handed), x);
    }
    forall x | CanTake(db, now, tasks, forbidden, x) && x !in handed + [id]
      ensures Before(db.jobs, id, x)
    {
      assert Before(rest.jobs, id, x);
    }
  }

  /** An undisturbed run from `db` has served `handed`, and the tables are now `rest`. */
  ghost predicate ServedTo(
    db: Tables, env: Env, now: Time, tasks: set<string>, forbidden: set<string>, handed: seq<JobId>, rest: Tables)
  {
    Served(db, now, tasks, forbidden, handed) && rest == After(db, env, now, Elements(handed))
  }

  lemma ServeAndRelease(
    db: Tables, env: Env, now: Time, tasks: set<string>, forbidden: set<string>, handed: seq<JobId>, rest: Tables,
    worker: WorkerId, id: JobId)
    requires Paired(db) && ServedTo(db, env, now, tasks, forbidden, handed, rest)
    requires IsNext(rest, now, tasks, forbidden, id)
    ensures id in db.jobs && rest.jobs[id] == db.jobs[id] && (tasks != {} ==> db.jobs[id].task in tasks)
    ensures ServedTo(db, env, now, tasks, forbidden, handed + [id],
                     Release(Take(rest, worker, id, now), worker, id, OutcomeOf(db, env, id), now))
  {
    ServeNext(db, env, now, tasks, forbidden, handed, id);
    HandoutThenRelease(db, env, now, Elements(handed), worker, id);
  }

  ghost predicate AllLocked(db: Tables, worker: WorkerId, handed: seq<JobId>) {
    forall x | x in handed :: x in db.jobs && db.jobs[x].lockedBy == Some(worker) && db.jobs[x].lockedAt.Some?
  }

  lemma TakeKeepsLocked(db: Tables, worker: WorkerId, id: JobId, now: Time, handed: seq<JobId>)
    requires AllLocked(db, worker, handed) && id in db.jobs
    ensures AllLocked(Take(db, worker, id, now), worker, handed + [id])
  {}

  // The measure that bounds the worker loops

  function Left(job: Job): nat {
    if job.attempts < job.maxAttempts then job.maxAttempts - job.attempts else 0
  }

  /** The attempts all jobs have left together. */
  ghost function AttemptsLeft(jobs: map<JobId, Job>): nat {
    if jobs == map[] then 0
    else
      var id :| id in jobs;
      Left(jobs[id]) + AttemptsLeft(jobs - {id})
  }

  lemma {:induction false} AttemptsLeftRemove(jobs: map<JobId, Job>, id: JobId)
    requires id in jobs
    ensures AttemptsLeft(jobs) == Left(jobs[id]) + AttemptsLeft(jobs - {id})
    decreases |jobs|
  {
    var x :| x in jobs && AttemptsLeft(jobs) == Left(jobs[x]) + AttemptsLeft(jobs - {x});
    if x != id {
      AttemptsLeftRemove(jobs - {x}, id);
      AttemptsLeftRemove(jobs - {id}, x);
      assert jobs - {x} - {id} == jobs - {id} - {x};
    }
  }

  lemma AttemptsLeftUpdate(jobs: map<JobId, Job>, id: JobId, job: Job)
    requires id in jobs
    ensures AttemptsLeft(jobs[id := job]) + Left(jobs[id]) == AttemptsLeft(jobs) + Left(job)
  {
    AttemptsLeftRemove(jobs, id);
    AttemptsLeftRemove(jobs[id := job], id);
    assert jobs[id := job] - {id} == jobs - {id};
  }

  /** A handout uses up one attempt, and no release gives it back. */
  lemma HandoutShrinks(db: Tables, worker: WorkerId, id: JobId, now: Time, outcome: Outcome, later: Time)
    requires id in db.jobs && db.jobs[id].attempts < db.jobs[id].maxAttempts
    ensures var taken := Take(db, worker, id, now);
      && AttemptsLeft(taken.jobs) == AttemptsLeft(db.jobs) - 1
      && AttemptsLeft(Release(taken, worker, id, outcome, later).jobs) <= AttemptsLeft(db.jobs) - 1
  {
    var taken := Take(db, worker, id, now);
    AttemptsLeftUpdate(db.jobs, id, taken.jobs[id]);
    match outcome
    case Succeeds => AttemptsLeftRemove(taken.jobs, id);
    case Errs(message) => AttemptsLeftUpdate(taken.jobs, id, Fail(taken, worker, id, message, later).jobs[id]);
  }

  // The worker

  datatype Event = JobStart(id: JobId) | JobError(id: JobId) | JobFailed(id: JobId) | JobSuccess(id: JobId)
    | JobComplete(id: JobId)

  /** job:failed follows job:error on the last attempt; job:complete is last, and only after the release was written. */
  function EventsOf(id: JobId, job: Job, outcome: Outcome, releaseFails: bool): seq<Event> {
    [JobStart(id)]
    + (match outcome
       case Succeeds => [JobSuccess(id)]
       case Errs(_) => if job.attempts >= job.maxAttempts then [JobError(id), JobFailed(id)] else [JobError(id)])
    + (if releaseFails then [] else [JobComplete(id)])
  }

  lemma EventsOfOneJob(id: JobId, job: Job, outcome: Outcome, releaseFails: bool)
    ensures var e, failed := EventsOf(id, job, outcome, releaseFails), outcome.Errs? && job.attempts >= job.maxAttempts;
      && e[0] == JobStart(id) && e[1] == (if outcome.Succeeds? then JobSuccess(id) else JobError(id))
      && |e| == 2 + (if failed then 1 else 0) + (if releaseFails then 0 else 1)
      && (failed ==> e[2] == JobFailed(id)) && (JobFailed(id) in e <==> failed)
      && (!releaseFails ==> e[|e| - 1] == JobComplete(id)) && (JobComplete(id) in e <==> !releaseFails)
  {
    var e := EventsOf(id, job, outcome, releaseFails);
    assert e[..2] == [JobStart(id), if outcome.Succeeds? then JobSuccess(id) else JobError(id)];
  }

  /** The tables after one iteration of the loop: a handout at `taken`, and its release, if any, at `released`. */
  function AfterTurn(
    db: Tables, env: Env, handlers: set<string>, worker: WorkerId, id: JobId, taken: Time, released: Time): Tables
    requires id in db.jobs
  {
    var locked := Take(db, worker, id, taken);
    if db.jobs[id].task !in handlers || env.releaseFails(id, db.jobs[id].attempts + 1) then locked
    else Release(locked, worker, id, OutcomeOf(db, env, id), released)
  }

  function TurnEvents(db: Tables, env: Env, handlers: set<string>, id: JobId): seq<Event>
    requires id in db.jobs
  {
    var attempt := db.jobs[id].attempts + 1;
    if db.jobs[id].task !in handlers then []
    else EventsOf(id, db.jobs[id].(attempts := attempt), OutcomeOf(db, env, id), env.releaseFails(id, attempt))
  }

  lemma TurnShrinks(
    db: Tables, env: Env, handlers: set<string>, worker: WorkerId, id: JobId, taken: Time, released: Time)
    requires id in db.jobs && db.jobs[id].attempts < db.jobs[id].maxAttempts
    ensures AttemptsLeft(AfterTurn(db, env, handlers, worker, id, taken, released).jobs) < AttemptsLeft(db.jobs)
  {
    HandoutShrinks(db, worker, id, taken, OutcomeOf(db, env, id), released);
  }

  /** The events of one undisturbed handout of a job that stands as in `db`. */
  function EventsOfHandout(db: Tables, env: Env, id: JobId): seq<Event>
    requires id in db.jobs
  {
    EventsOf(id, db.jobs[id].(attempts := db.jobs[id].attempts + 1), OutcomeOf(db, env, id), false)
  }

  /** Where the loop of RunOnce stands when nothing has disturbed it. */
  ghost predicate Undisturbed(
    db: Tables, env: Env, now: Time, handlers: set<string>, forbidden: set<string>, handed: seq<JobId>,
    before: seq<Event>, rest: Tables, clock: Time, events: seq<Event>)
  {
    && clock == now
    && ServedTo(db, env, now, handlers, forbidden, handed, rest)
    && Traced(db, env, handed, before, events)
  }

  lemma TurnUndisturbed(
    db: Tables, env: Env, now: Time, handlers: set<string>, forbidden: set<string>, handed: seq<JobId>,
    before: seq<Event>, rest: Tables, events: seq<Event>, worker: WorkerId, id: JobId)
    requires Paired(db) && Calm(env) && handlers != {}
    requires Undisturbed(db, env, now, handlers, forbidden, handed, before, rest, now, events)
    requires IsNext(rest, now, handlers, forbidden, id)
    ensures Undisturbed(db, env, now, handlers, forbidden, handed + [id], before,
                        AfterTurn(rest, env, handlers, worker, id, now, now), now,
                        events + TurnEvents(rest, env, handlers, id))
  {
    TurnServes(db, env, now, handlers, forbidden, handed, rest, worker, id);
    TracedNext(db, env, handed, before, events, id);
  }

  lemma TurnLocks(
    db: Tables, env: Env, worker: WorkerId, id: JobId, taken: Time, released: Time, handed: seq<JobId>)
    requires AllLocked(db, worker, handed) && id in db.jobs
    ensures AllLocked(AfterTurn(db, env, {}, worker, id, taken, released), worker, handed + [id])
  {
    TakeKeepsLocked(db, worker, id, taken, handed);
  }

  /** When nothing is eligible any more, what was served is what was eligible. */
  lemma AllServed(
    db: Tables, env: Env, now: Time, handlers: set<string>, forbidden: set<string>, handed: seq<JobId>, rest: Tables)
    requires ServedTo(db, env, now, handlers, forbidden, handed, rest)
    requires forall x :: !CanTake(rest, now, handlers, forbidden, x)
    ensures forall x :: x in handed <==> CanTake(db, now, handlers, forbidden, x)
  {
    forall x ensures x in handed <==> CanTake(db, now, handlers, forbidden, x) {
      EligibleAfter(db, env, now, handlers, forbidden, Elements(handed), x);
      assert !CanTake(rest, now, handlers, forbidden, x);
    }
  }

  /** In an undisturbed run an iteration serves the next job. */
  lemma TurnServes(
    db: Tables, env: Env, now: Time, handlers: set<string>, forbidden: set<string>, handed: seq<JobId>, rest: Tables,
    worker: WorkerId, id: JobId)
    requires Paired(db) && Calm(env) && handlers != {}
    requires ServedTo(db, env, now, handlers, forbidden, handed, rest) && IsNext(rest, now, handlers, forbidden, id)
    ensures ServedTo(db, env, now, handlers, forbidden, handed + [id],
                     AfterTurn(rest, env, handlers, worker, id, now, now))
    ensures id in db.jobs && TurnEvents(rest, env, handlers, id) == EventsOfHandout(db, env, id)
  {
    ServeAndRelease(db, env, now, handlers, forbidden, handed, rest, worker, id);
  }

  /** The events of undisturbed handouts, one after the other. */
  function EventsOfAll(db: Tables, env: Env, handed: seq<JobId>): seq<Event>
    requires forall x | x in handed :: x in db.jobs
  {
    if handed == [] then []
    else EventsOfAll(db, env, handed[..|handed| - 1]) + EventsOfHandout(db, env, handed[|handed| - 1])
  }

  predicate Traced(db: Tables, env: Env, handed: seq<JobId>, before: seq<Event>, events: seq<Event>) {
    (forall x | x in handed :: x in db.jobs) && events == before + EventsOfAll(db, env, handed)
  }

  lemma TracedNext(db: Tables, env: Env, handed: seq<JobId>, before: seq<Event>, events: seq<Event>, id: JobId)
    requires Traced(db, env, handed, before, events) && id in db.jobs
    ensures Traced(db, env, handed + [id], before, events + EventsOfHandout(db, env, id))
  {
    assert (handed + [id])[..|handed|] == handed;
  }

  /** job:failed is emitted for the served jobs that failed on their last attempt, and for no other. */
  lemma FailedOfHandout(db: Tables, env: Env, id: JobId, x: JobId)
    requires id in db.jobs
    ensures JobFailed(x) in EventsOfHandout(db, env, id) <==>
      x == id && env.handler(x, db.jobs[id].attempts + 1).Errs? && db.jobs[id].attempts + 1 >= db.jobs[id].maxAttempts
  {
    var job := db.jobs[id].(attempts := db.jobs[id].attempts + 1);
    EventsOfOneJob(id, job, OutcomeOf(db, env, id), false);
    var e := EventsOfHandout(db, env, id);
    assert forall k | 0 <= k < |e| ::
      e[k] in [JobStart(id), JobSuccess(id), JobError(id), JobFailed(id), JobComplete(id)];
  }

  lemma {:induction false} FailedOfAll(db: Tables, env: Env, handed: seq<JobId>, x: JobId)
    requires forall y | y in handed :: y in db.jobs
    ensures JobFailed(x) in EventsOfAll(db, env, handed) <==>
      x in handed && env.handler(x, db.jobs[x].attempts + 1).Errs? && db.jobs[x].attempts + 1 >= db.jobs[x].maxAttempts
  {
    if handed != [] {
      var n := |handed| - 1;
      FailedOfAll(db, env, handed[..n], x);
      FailedOfHandout(db, env, handed[n], x);
      assert handed == handed[..n] + [handed[n]];
    }
  }

  lemma FailedInTrace(db: Tables, env: Env, handed: seq<JobId>, before: seq<Event>, events: seq<Event>)
    requires Traced(db, env, handed, before, events)
    ensures before <= events
    ensures FailedAreTold(db.jobs, env, handed, events[|before|..])
  {
    assert events[|before|..] == EventsOfAll(db, env, handed);
    forall x { FailedOfAll(db, env, handed, x); }
  }

  /** Smaller priority numbers first, then earlier run times, then smaller ids. */
  ghost predicate InServiceOrder(jobs: map<JobId, Job>, handed: seq<JobId>) {
    forall i, k | 0 <= i < k < |handed| ::
      && handed[i] in jobs && handed[k] in jobs
      && var x, y := jobs[handed[i]], jobs[handed[k]];
         && x.priority <= y.priority
         && (x.priority == y.priority ==> x.runAt <= y.runAt)
         && (x.priority == y.priority && x.runAt == y.runAt ==> handed[i] < handed[k])
  }

  /** Jobs handed out are gone if they succeeded, and backed off if they failed; all others are as they were. */
  ghost predicate RowsAfterRun(jobs: map<JobId, Job>, env: Env, now: Time, handed: seq<JobId>, rest: map<JobId, Job>) {
    && rest.Keys <= jobs.Keys
    && forall x | x in jobs :: var job, outcome := jobs[x], env.handler(x, jobs[x].attempts + 1); (
      && (x !in handed ==> x in rest && rest[x] == job)
      && (x in handed && outcome.Succeeds? ==> x !in rest)
      && (x in handed && outcome.Errs? ==> x in rest && rest[x] == job.(
            attempts := job.attempts + 1, runAt := now + Backoff(job.attempts + 1),
            lastError := Some(outcome.message), lockedBy := None, lockedAt := None)))
  }

  /** The events added tell of job:failed for the jobs that failed on their last attempt, and for no other. */
  ghost predicate FailedAreTold(jobs: map<JobId, Job>, env: Env, handed: seq<JobId>, added: seq<Event>) {
    forall x :: JobFailed(x) in added <==>
      && x in handed && x in jobs && env.handler(x, jobs[x].attempts + 1).Errs?
      && jobs[x].attempts + 1 >= jobs[x].maxAttempts
  }

  lemma RunEnds(
    db: Tables, env: Env, now: Time, handlers: set<string>, forbidden: set<string>, handed: seq<JobId>, rest: Tables)
    requires ServedTo(db, env, now, handlers, forbidden, handed, rest)
    ensures rest.queues == db.queues && RowsAfterRun(db.jobs, env, now, handed, rest.jobs)
    ensures InServiceOrder(db.jobs, handed)
  {}

  class Worker {
    const id: WorkerId
    const handlers: set<string>
    const forbiddenFlags: set<string>
    const db: JobStore
    var activeJob: Option<JobId>
    var events: seq<Event>

    constructor (id: WorkerId, handlers: set<string>, forbiddenFlags: set<string>, db: JobStore)
      ensures this.id == id && this.handlers == handlers && this.forbiddenFlags == forbiddenFlags && this.db == db
      ensures activeJob == None && events == []
    {
      this.id, this.handlers, this.forbiddenFlags, this.db := id, handlers, forbiddenFlags, db;
      activeJob, events := None, [];
    }

    /** `job` is the row GetJob returned; `elapsed` is the time the handler takes. */
    method ProcessJob(jobId: JobId, job: Job, outcome: Outcome, releaseFails: bool, elapsed: nat) returns (ok: bool)
      modifies this, db
      ensures activeJob == if job.task in handlers then None else old(activeJob)
      ensures db.clock == old(db.clock) + (if job.task in handlers then elapsed else 0)
      ensures ok <==> job.task in handlers && outcome.Succeeds? && !releaseFails
      ensures db.Contents() ==
        if job.task !in handlers || releaseFails then old(db.Contents())
        else Release(old(db.Contents()), id, jobId, outcome, db.clock)
      ensures events == old(events) + (if job.task in handlers then EventsOf(jobId, job, outcome, releaseFails) else [])
      // The events added, one by one
      ensures old(events) <= events && (job.task !in handlers ==> events == old(events))
      ensures job.task in handlers ==>
        var added, failed := events[|old(events)|..], outcome.Errs? && job.attempts >= job.maxAttempts; (
        && |added| == 2 + (if failed then 1 else 0) + (if releaseFails then 0 else 1)
        && added[0] == JobStart(jobId)
        && added[1] == (if outcome.Succeeds? then JobSuccess(jobId) else JobError(jobId))
        && (failed ==> added[2] == JobFailed(jobId)) && (JobFailed(jobId) in added <==> failed)
        && (!releaseFails ==> added[|added| - 1] == JobComplete(jobId))
        && (JobComplete(jobId) in added <==> !releaseFails))
    {
      EventsOfOneJob(jobId, job, outcome, releaseFails);
      if job.task !in handlers {
        return false;
      }
      activeJob := Some(jobId);
      events := events + [JobStart(jobId)];
      db.clock := db.clock + elapsed;
      match outcome {
        case Errs(message) =>
          events := events + [JobError(jobId)];
          if job.attempts >= job.maxAttempts {
            events := events + [JobFailed(jobId)];
          }
          if !releaseFails {
            db.FailJob(id, jobId, message);
            events := events + [JobComplete(jobId)];
          }
          ok := false;
        case Succeeds =>
          events := events + [JobSuccess(jobId)];
          if !releaseFails {
            db.CompleteJob(id, jobId);
            events := events + [JobComplete(jobId)];
          }
          ok := !releaseFails;
      }
      activeJob := None;
    }

    /** The jobs this worker may be handed. */
    ghost predicate Wants(tables: Tables, now: Time, x: JobId) {
      CanTake(tables, now, handlers, forbiddenFlags, x)
    }

    /** One iteration of the loop of RunOnce: GetJob, and ProcessJob on what it found. */
    method ServeNextJob(env: Env, k: nat) returns (found: Option<JobId>)
      modifies this, db
      ensures found.None? ==> db.Contents() == old(db.Contents()) && db.clock == old(db.clock) && events == old(events)
      ensures found.None? ==> forall x :: !Wants(db.Contents(), db.clock, x)
      ensures found.Some? ==> IsNext(old(db.Contents()), old(db.clock), handlers, forbiddenFlags, found.value)
      ensures found.Some? ==>
        && db.Contents() == AfterTurn(old(db.Contents()), env, handlers, id, found.value, old(db.clock), db.clock)
        && events == old(events) + TurnEvents(old(db.Contents()), env, handlers, found.value)
        && db.clock == old(db.clock) + (if old(db.jobs)[found.value].task in handlers then env.elapsed(k) else 0)
    {
      found := db.GetJob(id, handlers, forbiddenFlags);
      if found.Some? {
        var job := db.jobs[found.value];
        var outcome := env.handler(found.value, job.attempts);
        var _ := ProcessJob(found.value, job, outcome, env.releaseFails(found.value, job.attempts), env.elapsed(k));
      }
    }

    /**
     * Ends under any clock and any outcomes, after at most as many handouts as there are attempts left.
     * When nothing disturbs it, it hands out each job eligible at the start exactly once and in order;
     * the failed ones stay, backed off, and every other row is as before. The events are theirs, in that order.
     */
    method RunOnce(env: Env) returns (finished: bool, handed: seq<JobId>)
      requires Paired(db.Contents())
      modifies this, db
      ensures |handed| + AttemptsLeft(db.jobs) <= old(AttemptsLeft(db.jobs))
      ensures finished ==> forall x :: !Wants(db.Contents(), db.clock, x)
      ensures finished <==> forall k | 0 <= k <= |handed| :: !env.interrupted(k)
      ensures handlers == {} ==> AllLocked(db.Contents(), id, handed)  // the task filter is off and nothing is released
      ensures Calm(env) && handlers != {} ==>
        && finished
        && (forall x :: x in handed <==> Wants(old(db.Contents()), old(db.clock), x))
        && db.Contents() == After(old(db.Contents()), env, old(db.clock), Elements(handed))
        && Traced(old(db.Contents()), env, handed, old(events), events)
        && InServiceOrder(old(db.jobs), handed)
        && db.clock == old(db.clock) && db.queues == old(db.queues)
        && RowsAfterRun(old(db.jobs), env, db.clock, handed, db.jobs)
        && old(events) <= events && FailedAreTold(old(db.jobs), env, handed, events[|old(events)|..])
    {
      handed := [];
      ghost var db0, now0, events0 := db.Contents(), db.clock, events;
      assert After(db0, env, now0, Elements([])) == db0;
      while true
        invariant |handed| + AttemptsLeft(db.jobs) <= AttemptsLeft(db0.jobs)
        invariant forall k | 0 <= k < |handed| :: !env.interrupted(k)
        invariant handlers == {} ==> AllLocked(db.Contents(), id, handed)
        invariant Calm(env) && handlers != {} ==>
          Undisturbed(db0, env, now0, handlers, forbiddenFlags, handed, events0, db.Contents(), db.clock, events)
        decreases AttemptsLeft(db.jobs)
      {
        if env.interrupted(|handed|) {
          return false, handed;
        }
        ghost var before, clock, trace := db.Contents(), db.clock, events;
        var found := ServeNextJob(env, |handed|);
        if found.None? {
          if Calm(env) && handlers != {} {
            forall x ensures !CanTake(before, now0, handlers, forbiddenFlags, x) {
              assert !Wants(db.Contents(), db.clock, x);
            }
            AllServed(db0, env, now0, handlers, forbiddenFlags, handed, before);
            FailedInTrace(db0, env, handed, events0, events);
            RunEnds(db0, env, now0, handlers, forbiddenFlags, handed, before);
          }
          return true, handed;
        }
        TurnShrinks(before, env, handlers, id, found.value, clock, db.clock);
        if handlers == {} {
          TurnLocks(before, env, id, found.value, clock, db.clock, handed);
        } else if Calm(env) {
          assert db.clock == now0;
          TurnUndisturbed(db0, env, now0, handlers, forbiddenFlags, handed, events0, before, trace, id, found.value);
        }
        handed := handed + [found.value];
      }
    }
  }
}
