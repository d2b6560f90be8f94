/**
 * The job lock protocol: any number of workers, each driven by one goroutine, interleave the
 * statements of JobTables. GetJob is two steps: a pick, which row-locks a job and its queue row and
 * skips rows another transaction holds, and a commit. Every choice the environment makes is an
 * argument of a step, so a run is an initial state and a sequence of steps.
 */
module LockProtocol {
  import opened Wrappers
  import opened JobTables

  /** A GetJob transaction between its pick and its commit; `at` is its now(). */
  datatype Pick = Pick(job: JobId, at: Time, rows: set<string>)

  /** What a worker remembers of the job it is processing, as GetJob returned it. */
  datatype Active = Active(job: JobId, queue: Option<string>, attempt: nat, maxAttempts: nat, at: Time, failing: bool)

  /** One handout of a job: turn i of a job is its attempt i + 1. `gaveUp` counts job:failed events. */
  datatype Turn = Turn(worker: WorkerId, at: Time, failedAt: Option<Time>, gaveUp: nat)

  /** What was ever recorded of a job; unlike its row, it outlives the delete. */
  datatype History = History(maxAttempts: nat, firstRunAt: Time, turns: seq<Turn>)

  datatype State = State(
    db: Tables,
    clock: Time,
    picks: map<WorkerId, Pick>,
    active: map<WorkerId, Active>,
    history: map<JobId, History>,
    log: seq<JobId>)  // handouts, in commit order

  datatype Step =
    | Tick(to: Time)
    | Insert(id: JobId, job: Job)
    | PickJob(worker: WorkerId, id: JobId, tasks: set<string>, forbidden: set<string>, rows: set<string>)
    | CommitPick(worker: WorkerId)
    | HandlerError(worker: WorkerId)
    | FailJob(worker: WorkerId, message: string)
    | CompleteJob(worker: WorkerId)
    | Abandon(worker: WorkerId)  // a crash, or a failed release after which the worker moves on
    | ResetLockedAt
    | AdminComplete(ids: set<JobId>)

  predicate JobHeld(s: State, id: JobId) {
    exists w | w in s.picks :: s.picks[w].job == id
  }

  predicate QueueHeld(s: State, q: string) {
    exists w | w in s.picks :: q in s.picks[w].rows
  }

  /** The rows a GetJob starting now may return: the eligible ones it does not skip. */
  predicate Visible(s: State, tasks: set<string>, forbidden: set<string>, id: JobId) {
    && CanTake(s.db, s.clock, tasks, forbidden, id)
    && !JobHeld(s, id)
    && (s.db.jobs[id].queueName.Some? ==> !QueueHeld(s, s.db.jobs[id].queueName.value))
  }

  /** The sub-select may lock queue rows of further candidates; `rows` is what it has locked in the end. */
  ghost predicate CanPick(
    s: State, worker: WorkerId, id: JobId, tasks: set<string>, forbidden: set<string>, rows: set<string>) {
    && worker !in s.picks && worker !in s.active
    && Visible(s, tasks, forbidden, id)
    && (forall x | Visible(s, tasks, forbidden, x) && x != id :: Before(s.db.jobs, id, x))
    && (s.db.jobs[id].queueName.Some? ==> s.db.jobs[id].queueName.value in rows)
    && (forall q | q in rows :: q in s.db.queues && s.db.queues[q].lockedAt.None? && !QueueHeld(s, q))
  }

  ghost predicate IsFresh(s: State, id: JobId, job: Job) {
    && id !in s.history
    && job.lockedBy.None? && job.lockedAt.None?
    && job.attempts == 0 < job.maxAttempts
    && (job.queueName.Some? ==> job.queueName.value in s.db.queues)
  }

  /** A statement that would touch a held row waits: its step is then not enabled. */
  ghost predicate Enabled(s: State, step: Step) {
    match step
    case Tick(to) => s.clock <= to
    case Insert(id, job) => IsFresh(s, id, job)
    case PickJob(w, id, tasks, forbidden, rows) => CanPick(s, w, id, tasks, forbidden, rows)
    case CommitPick(w) => w in s.picks && s.picks[w].job in s.db.jobs
    case HandlerError(w) => w in s.active && !s.active[w].failing
    case FailJob(w, _) => w in s.active && s.active[w].failing
    case CompleteJob(w) => w in s.active && !s.active[w].failing && !JobHeld(s, s.active[w].job)
    case Abandon(w) => true
    case ResetLockedAt => true
    case AdminComplete(ids) => forall id | id in ids :: !JobHeld(s, id)
  }

  ghost function Next(s: State, step: Step): State
    requires Enabled(s, step)
  {
    match step
    case Tick(to) => s.(clock := to)
    case Insert(id, job) => s.(
      db := s.db.(jobs := s.db.jobs[id := job]),
      history := s.history[id := History(job.maxAttempts, job.runAt, [])])
    case PickJob(w, id, _, _, rows) => s.(picks := s.picks[w := Pick(id, s.clock, rows)])
    case CommitPick(w) => Commit(s, w)
    case HandlerError(w) => HandlerFails(s, w)
    case FailJob(w, message) => FailedRelease(s, w, message)
    case CompleteJob(w) => s.(db := Complete(s.db, w, s.active[w].job), active := s.active - {w})
    case Abandon(w) => s.(picks := s.picks - {w}, active := s.active - {w})
    case ResetLockedAt => s.(db := ResetLocks(s.db, s.clock))
    case AdminComplete(ids) => s.(db := CompleteJobs(s.db, ids, s.clock))
  }

  ghost function Commit(s: State, w: WorkerId): State
    requires w in s.picks && s.picks[w].job in s.db.jobs
  {
    var p := s.picks[w];
    var job := s.db.jobs[p.job];
    s.(db := Take(s.db, w, p.job, p.at),
       picks := s.picks - {w},
       active := s.active[w := Active(p.job, job.queueName, job.attempts + 1, job.maxAttempts, p.at, false)],
       history := AddTurn(s.history, p.job, Turn(w, p.at, None, 0)),
       log := s.log + [p.job])
  }

  ghost function HandlerFails(s: State, w: WorkerId): State
    requires w in s.active
  {
    GiveUp(s.(active := s.active[w := s.active[w].(failing := true)]), s.active[w])
  }

  /** ProcessJob emits job:failed when the attempt number it was given has reached the maximum. */
  ghost function GiveUp(s: State, a: Active): State {
    if a.attempt >= a.maxAttempts
    then s.(history := EditTurn(s.history, a, (t: Turn) => t.(gaveUp := t.gaveUp + 1)))
    else s
  }

  ghost function FailedRelease(s: State, w: WorkerId, message: string): State
    requires w in s.active
  {
    var a := s.active[w];
    s.(db := Fail(s.db, w, a.job, message, s.clock),
       active := s.active - {w},
       history := if FailMatches(s.db, w, a.job)
                  then EditTurn(s.history, a, (t: Turn) => t.(failedAt := Some(s.clock)))
                  else s.history)
  }

  ghost function AddTurn(history: map<JobId, History>, id: JobId, turn: Turn): map<JobId, History> {
    if id in history then history[id := history[id].(turns := history[id].turns + [turn])] else history
  }

  ghost function EditTurn(history: map<JobId, History>, a: Active, edit: Turn -> Turn): map<JobId, History> {
    if a.job in history && 1 <= a.attempt <= |history[a.job].turns| then
      var h, i := history[a.job], a.attempt - 1;
      history[a.job := h.(turns := h.turns[i := edit(h.turns[i])])]
    else
      history
  }

  // Runs

  ghost predicate Init(s: State) {
    && s.db.jobs == map[] && s.picks == map[] && s.active == map[] && s.history == map[] && s.log == []
    && (forall q | q in s.db.queues :: s.db.queues[q] == FREE)
  }

  ghost predicate IsRun(s: State, steps: seq<Step>)
    decreases |steps|
  {
    steps == [] || (Enabled(s, steps[0]) && IsRun(Next(s, steps[0]), steps[1..]))
  }

  ghost function Exec(s: State, steps: seq<Step>): State
    requires IsRun(s, steps)
    decreases |steps|
  {
    if steps == [] then s else Exec(Next(s, steps[0]), steps[1..])
  }

  // What every step keeps

  ghost predicate PickOk(s: State, w: WorkerId)
    requires w in s.picks
  {
    var p := s.picks[w];
    && w !in s.active
    && p.job in s.db.jobs
    && var job := s.db.jobs[p.job];
    && job.lockedBy.None?
    && job.attempts < job.maxAttempts
    && job.runAt <= p.at <= s.clock
    && (job.queueName.Some? ==> job.queueName.value in p.rows)
    && (forall q | q in p.rows :: q in s.db.queues && s.db.queues[q].lockedAt.None?)
  }

  ghost predicate PicksOk(s: State) {
    && (forall w | w in s.picks :: PickOk(s, w))
    && (forall v, w | v in s.picks && w in s.picks && v != w ::
          s.picks[v].job != s.picks[w].job && s.picks[v].rows !! s.picks[w].rows)
  }

  /** While a worker holds the queue row of its job, that job, if still there, is the one locked in the queue. */
  ghost predicate ActiveOk(s: State, w: WorkerId)
    requires w in s.active
  {
    var a := s.active[w];
    && a.job in s.history
    && (a.job in s.db.jobs ==> s.db.jobs[a.job].queueName == a.queue)
    && HoldsQueueFor(s.db, w, a.queue, a.job)
    && (a.job in s.db.jobs && a.queue.Some? && a.queue.value in s.db.queues
        && s.db.queues[a.queue.value].lockedBy == Some(w)
        ==> s.db.jobs[a.job].lockedBy == Some(w))
  }

  ghost predicate LockInv(s: State) {
    && s.db.jobs.Keys <= s.history.Keys
    && TablesInv(s.db)
    && PicksOk(s)
    && (forall w | w in s.active :: ActiveOk(s, w))
  }

  lemma StepKeepsTables(s: State, step: Step)
    requires LockInv(s) && Enabled(s, step)
    ensures TablesInv(Next(s, step).db) && Next(s, step).db.jobs.Keys <= Next(s, step).history.Keys
  {
    match step
    case CommitPick(w) => assert PickOk(s, w); TakeKeepsTables(s.db, w, s.picks[w].job, s.picks[w].at);
    case FailJob(w, message) => FailKeepsTables(s.db, w, s.active[w].job, message, s.clock);
    case CompleteJob(w) => assert ActiveOk(s, w); CompleteKeepsTables(s.db, w, s.active[w].job);
    case ResetLockedAt => ResetKeepsTables(s.db, s.clock);
    case AdminComplete(ids) => AdminKeepsTables(s.db, ids, s.clock);
    case Insert(id, job) =>
      var db := s.db.(jobs := s.db.jobs[id := job]);
      forall x, q | LockedIn(db, x, q) ensures LockedIn(s.db, x, q) {}
    case _ =>
  }

  /** The rows of a pick are there, and unlocked. */
  ghost predicate HeldUnlocked(db: Tables, p: Pick) {
    && p.job in db.jobs && db.jobs[p.job].lockedBy.None? && db.jobs[p.job].lockedAt.None?
    && forall q | q in p.rows :: q in db.queues && db.queues[q].lockedBy.None? && db.queues[q].lockedAt.None?
  }

  ghost predicate HeldSame(db: Tables, db': Tables, p: Pick) {
    && p.job in db.jobs && p.job in db'.jobs && db'.jobs[p.job] == db.jobs[p.job]
    && forall q | q in p.rows :: q in db.queues && q in db'.queues && db'.queues[q] == db.queues[q]
  }

  lemma StatementsLeaveHeldRows(
    db: Tables, p: Pick, w: WorkerId, id: JobId, message: string, ids: set<JobId>, now: Time)
    requires HeldUnlocked(db, p)
    ensures id != p.job ==> HeldSame(db, Complete(db, w, id), p)
    ensures HeldSame(db, Fail(db, w, id, message, now), p)
    ensures HeldSame(db, ResetLocks(db, now), p)
    ensures p.job !in ids ==> HeldSame(db, CompleteJobs(db, ids, now), p)
  {}

  lemma PickedIsUnlocked(s: State, v: WorkerId)
    requires LockInv(s) && v in s.picks
    ensures HeldUnlocked(s.db, s.picks[v])
  {
    assert PickOk(s, v);
  }

  /** Row locks keep what a pick has seen as it was: no other statement changes a held row. */
  lemma HeldRowsUntouched(s: State, step: Step, v: WorkerId)
    requires LockInv(s) && Enabled(s, step) && v in s.picks && step != CommitPick(v)
    ensures HeldSame(s.db, Next(s, step).db, s.picks[v])
  {
    PickedIsUnlocked(s, v);
    match step
    case CommitPick(w) => CommitLeavesHeldRows(s, w, v);
    case CompleteJob(w) => StatementsLeaveHeldRows(s.db, s.picks[v], w, s.active[w].job, "", {}, s.clock);
    case FailJob(w, message) => StatementsLeaveHeldRows(s.db, s.picks[v], w, s.active[w].job, message, {}, s.clock);
    case ResetLockedAt => StatementsLeaveHeldRows(s.db, s.picks[v], v, s.picks[v].job, "", {}, s.clock);
    case AdminComplete(ids) => StatementsLeaveHeldRows(s.db, s.picks[v], v, s.picks[v].job, "", ids, s.clock);
    case _ =>
  }

  lemma CommitLeavesHeldRows(s: State, w: WorkerId, v: WorkerId)
    requires LockInv(s) && w in s.picks && v in s.picks && v != w && s.picks[w].job in s.db.jobs
    ensures HeldSame(s.db, Commit(s, w).db, s.picks[v])
  {
    assert PickOk(s, w) && PickOk(s, v);
  }

  lemma StepKeepsPick(s: State, step: Step, v: WorkerId)
    requires LockInv(s) && Enabled(s, step) && v in Next(s, step).picks
    ensures PickOk(Next(s, step), v)
  {
    if v in s.picks && step != CommitPick(v) {
      assert PickOk(s, v);
      HeldRowsUntouched(s, step, v);
    }
  }

  lemma StepKeepsPicks(s: State, step: Step)
    requires LockInv(s) && Enabled(s, step)
    ensures PicksOk(Next(s, step))
  {
    forall v | v in Next(s, step).picks ensures PickOk(Next(s, step), v) { StepKeepsPick(s, step, v); }
    if step.PickJob? {
      forall v | v in s.picks
        ensures s.picks[v].job != step.id && s.picks[v].rows !! step.rows
      {
        assert !JobHeld(s, step.id);
        forall q | q in step.rows && q in s.picks[v].rows ensures false { assert QueueHeld(s, q); }
      }
    }
  }

  lemma CommitKeepsActive(s: State, w: WorkerId, v: WorkerId)
    requires LockInv(s) && Enabled(s, CommitPick(w)) && v in Commit(s, w).active
    ensures ActiveOk(Commit(s, w), v)
  {
    var t := Commit(s, w);
    var queue := t.active[v].queue;
    assert PickOk(s, w) && (v != w ==> ActiveOk(s, v));
    forall x | LockedIn(t.db, x, queue) ensures x == s.picks[w].job || LockedIn(s.db, x, queue) {}
  }

  /** Only a commit locks a job. */
  lemma StepLocksNone(s: State, step: Step, x: JobId, queue: Option<string>)
    requires Enabled(s, step) && !step.CommitPick? && LockedIn(Next(s, step).db, x, queue)
    ensures LockedIn(s.db, x, queue)
  {}

  lemma StepKeepsActive(s: State, step: Step, v: WorkerId)
    requires LockInv(s) && Enabled(s, step) && v in Next(s, step).active
    ensures ActiveOk(Next(s, step), v)
  {
    if step.CommitPick? {
      CommitKeepsActive(s, step.worker, v);
    } else {
      var t := Next(s, step);
      var queue := t.active[v].queue;
      assert ActiveOk(s, v);
      forall x | LockedIn(t.db, x, queue) ensures LockedIn(s.db, x, queue) { StepLocksNone(s, step, x, queue); }
    }
  }

  /** Also a late CompleteJob, by a worker that has lost its lock: the queue row it would clear is not its own. */
  lemma StepKeepsLocks(s: State, step: Step)
    requires LockInv(s) && Enabled(s, step)
    ensures LockInv(Next(s, step))
  {
    StepKeepsTables(s, step);
    StepKeepsPicks(s, step);
    forall v | v in Next(s, step).active ensures ActiveOk(Next(s, step), v) { StepKeepsActive(s, step, v); }
  }
}
