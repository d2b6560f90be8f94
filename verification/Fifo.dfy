/**
 * A named queue is served one job at a time and in order, by any number of workers in any
 * interleaving, while the clock stands still and jobs are only picked, committed and completed.
 */
module Fifo {
  import opened JobTables
  import opened LockProtocol

  /** The worker accepts every job there is. */
  ghost predicate AcceptsAll(jobs: map<JobId, Job>, tasks: set<string>, forbidden: set<string>) {
    forall id | id in jobs :: (tasks == {} || jobs[id].task in tasks) && jobs[id].flags !! forbidden
  }

  ghost predicate Serves(s: State, step: Step) {
    match step
    case PickJob(_, _, tasks, forbidden, _) => AcceptsAll(s.db.jobs, tasks, forbidden)
    case CommitPick(_) => true
    case CompleteJob(_) => true
    case _ => false
  }

  ghost predicate Start(s: State) {
    && LockInv(s)
    && s.picks == map[] && s.active == map[] && s.log == []
    && forall id | id in s.db.jobs :: s.db.jobs[id].lockedBy.None?
  }

  /** Due, and with attempts left. */
  predicate Due(s: State, id: JobId) {
    id in s.db.jobs && s.db.jobs[id].runAt <= s.clock && s.db.jobs[id].attempts < s.db.jobs[id].maxAttempts
  }

  ghost predicate SameQueue(s: State, a: JobId, b: JobId) {
    && a in s.db.jobs && b in s.db.jobs
    && s.db.jobs[a].queueName.Some? && s.db.jobs[a].queueName == s.db.jobs[b].queueName
  }

  /** `id` still waits for its first handout of this run. */
  ghost predicate Waiting(s0: State, log: seq<JobId>, id: JobId) {
    Due(s0, id) && id !in log
  }

  ghost predicate RowsOk(s0: State, s: State) {
    && (forall id | id in s.db.jobs ::
          && id in s0.db.jobs
          && s.db.jobs[id].queueName == s0.db.jobs[id].queueName
          && (id in s.log ==> s.db.jobs[id].lockedBy.Some?))
    && (forall id | id in s0.db.jobs && id !in s.log :: id in s.db.jobs && s.db.jobs[id] == s0.db.jobs[id])
    && (forall id | id in s.log :: id in s0.db.jobs)
    && (forall w | w in s.active :: s.active[w].job in s.log)
  }

  /** What was handed out came before everything of its queue that still waits. */
  ghost predicate HandedFirst(s0: State, s: State) {
    forall i, id | 0 <= i < |s.log| && Waiting(s0, s.log, id) && SameQueue(s0, s.log[i], id) ::
      Before(s0.db.jobs, s.log[i], id)
  }

  ghost predicate PickFirst(s0: State, s: State, w: WorkerId)
    requires w in s.picks
  {
    var j := s.picks[w].job;
    && Waiting(s0, s.log, j)
    && forall id | Waiting(s0, s.log, id) && id != j && SameQueue(s0, j, id) :: Before(s0.db.jobs, j, id)
  }

  /** Handouts of one queue are in order, and the earlier job was completed before the later began. */
  ghost predicate InOrder(s0: State, s: State) {
    forall i, k | 0 <= i < k < |s.log| && SameQueue(s0, s.log[i], s.log[k]) ::
      Before(s0.db.jobs, s.log[i], s.log[k]) && s.log[i] !in s.db.jobs
  }

  ghost predicate FifoInv(s0: State, s: State) {
    && LockInv(s)
    && s.clock == s0.clock
    && RowsOk(s0, s)
    && HandedFirst(s0, s)
    && (forall w | w in s.picks :: PickFirst(s0, s, w))
    && InOrder(s0, s)
  }

  lemma HeldJobHoldsQueue(s: State, id: JobId)
    requires LockInv(s) && id in s.db.jobs && s.db.jobs[id].queueName.Some?
    ensures JobHeld(s, id) ==> QueueHeld(s, s.db.jobs[id].queueName.value)
  {}

  lemma PickKeepsFifo(s0: State, s: State, step: Step)
    requires FifoInv(s0, s) && step.PickJob? && Enabled(s, step) && Serves(s, step)
    ensures FifoInv(s0, Next(s, step))
  {
    var t := Next(s, step);
    StepKeepsLocks(s, step);
    var j := step.id;
    forall id | Waiting(s0, s.log, id) && id != j && SameQueue(s0, j, id)
      ensures Before(s0.db.jobs, j, id)
    {
      assert id in s.db.jobs && s.db.jobs[id] == s0.db.jobs[id];
      HeldJobHoldsQueue(s, id);
      assert Visible(s, step.tasks, step.forbidden, id);
    }
    forall v | v in t.picks ensures PickFirst(s0, t, v) { assert v != step.worker ==> PickFirst(s0, s, v); }
  }

  lemma CommitKeepsRows(s0: State, s: State, w: WorkerId)
    requires FifoInv(s0, s) && w in s.picks
    ensures s.picks[w].job in s.db.jobs && RowsOk(s0, Commit(s, w))
  {
    assert PickOk(s, w) && PickFirst(s0, s, w);
  }

  lemma CommitKeepsOrder(s0: State, s: State, w: WorkerId)
    requires FifoInv(s0, s) && w in s.picks && s.picks[w].job in s.db.jobs
    ensures InOrder(s0, Commit(s, w))
  {}

  lemma CommitEndsWaiting(s0: State, s: State, w: WorkerId)
    requires w in s.picks && s.picks[w].job in s.db.jobs
    ensures forall id :: Waiting(s0, Commit(s, w).log, id) <==> Waiting(s0, s.log, id) && id != s.picks[w].job
  {
    var log := Commit(s, w).log;
    forall id ensures id in log <==> id in s.log || id == s.picks[w].job {
      assert log[..|s.log|] == s.log && log[|s.log|] == s.picks[w].job;
    }
  }

  lemma CommitKeepsHanded(s0: State, s: State, w: WorkerId)
    requires FifoInv(s0, s) && w in s.picks && s.picks[w].job in s.db.jobs
    ensures HandedFirst(s0, Commit(s, w))
  {
    assert PickFirst(s0, s, w);
    CommitEndsWaiting(s0, s, w);
  }

  lemma CommitKeepsFirst(s0: State, s: State, w: WorkerId, v: WorkerId)
    requires FifoInv(s0, s) && w in s.picks && s.picks[w].job in s.db.jobs && v in Commit(s, w).picks
    ensures PickFirst(s0, Commit(s, w), v)
  {
    assert PickFirst(s0, s, v);
    CommitEndsWaiting(s0, s, w);
  }

  lemma CommitKeepsFifo(s0: State, s: State, w: WorkerId)
    requires FifoInv(s0, s) && w in s.picks
    ensures s.picks[w].job in s.db.jobs && FifoInv(s0, Commit(s, w))
  {
    CommitKeepsRows(s0, s, w);
    CommitKeepsOrder(s0, s, w);
    CommitKeepsHanded(s0, s, w);
    forall v | v in Commit(s, w).picks ensures PickFirst(s0, Commit(s, w), v) { CommitKeepsFirst(s0, s, w, v); }
    StepKeepsLocks(s, CommitPick(w));
  }

  lemma StepKeepsFifo(s0: State, s: State, step: Step)
    requires FifoInv(s0, s) && Enabled(s, step) && Serves(s, step)
    ensures FifoInv(s0, Next(s, step))
  {
    match step
    case PickJob(_, _, _, _, _) => PickKeepsFifo(s0, s, step);
    case CommitPick(w) => CommitKeepsFifo(s0, s, w);
    case CompleteJob(w) =>
      StepKeepsLocks(s, step);
      var t := Next(s, step);
      forall v | v in t.picks ensures PickFirst(s0, t, v) { assert PickFirst(s0, s, v); }
  }

  ghost predicate AllServe(s: State, steps: seq<Step>)
    requires IsRun(s, steps)
    decreases |steps|
  {
    steps == [] || (Serves(s, steps[0]) && AllServe(Next(s, steps[0]), steps[1..]))
  }

  lemma {:induction false} RunKeepsFifo(s0: State, s: State, steps: seq<Step>)
    requires FifoInv(s0, s) && IsRun(s, steps) && AllServe(s, steps)
    ensures FifoInv(s0, Exec(s, steps))
    decreases |steps|
  {
    if steps != [] {
      StepKeepsFifo(s0, s, steps[0]);
      RunKeepsFifo(s0, Next(s, steps[0]), steps[1..]);
    }
  }

  /**
   * In every interleaving, two handouts of one queue come in (priority, run_at, id) order, the first job
   * being completed by then; and what still waits in the queue comes after both.
   */
  lemma QueueIsServedInOrder(s: State, steps: seq<Step>, i: nat, k: nat)
    requires Start(s) && IsRun(s, steps) && AllServe(s, steps)
    requires i < k < |Exec(s, steps).log| && SameQueue(s, Exec(s, steps).log[i], Exec(s, steps).log[k])
    ensures var log := Exec(s, steps).log; var x, y := s.db.jobs[log[i]], s.db.jobs[log[k]];
      && x.priority <= y.priority
      && (x.priority == y.priority ==> x.runAt <= y.runAt)
      && (x.priority == y.priority && x.runAt == y.runAt ==> log[i] < log[k])
    ensures Exec(s, steps).log[i] !in Exec(s, steps).db.jobs
    ensures var log := Exec(s, steps).log; var y := s.db.jobs[log[k]];
      forall id | Due(s, id) && id !in log && SameQueue(s, log[k], id) ::
        && y.priority <= s.db.jobs[id].priority
        && (y.priority == s.db.jobs[id].priority ==> y.runAt <= s.db.jobs[id].runAt)
        && (y.priority == s.db.jobs[id].priority && y.runAt == s.db.jobs[id].runAt ==> log[k] < id)
  {
    RunKeepsFifo(s, s, steps);
    var t := Exec(s, steps);
    assert Before(s.db.jobs, t.log[i], t.log[k]);
    forall id | Due(s, id) && id !in t.log && SameQueue(s, t.log[k], id) ensures Before(s.db.jobs, t.log[k], id) {
      assert Waiting(s, t.log, id);
    }
  }
}
