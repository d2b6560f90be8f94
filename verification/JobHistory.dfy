/** What the history of handouts keeps in every run: spacing, counting, job:failed and back-off. */
module JobHistory {
  import opened Wrappers
  import opened JobTables
  import opened LockProtocol

  /** Matched FailJob statements among the first n turns. */
  ghost function Fails(turns: seq<Turn>, n: nat): (k: nat)
    requires n <= |turns|
    ensures k <= n
  {
    if n == 0 then 0 else Fails(turns, n - 1) + (if turns[n - 1].failedAt.Some? then 1 else 0)
  }

  /** The sum of the first n back-offs. */
  ghost function BackoffSum(n: nat): Time {
    if n == 0 then 0 else BackoffSum(n - 1) + Backoff(n)
  }

  /** Turn i - 1 was followed by turn i: it failed and backed off, or its lock had expired. */
  ghost predicate Spaced(h: History, i: nat)
    requires 0 < i < |h.turns|
  {
    var a, at := h.turns[i - 1], h.turns[i].at;
    || (a.failedAt.Some? && a.at <= a.failedAt.value && at >= a.failedAt.value + Backoff(i))
    || at > a.at + LOCK_EXPIRY
  }

  /** Turn i waited for every back-off before it. */
  ghost predicate BackedOff(h: History, i: nat)
    requires i < |h.turns|
  {
    h.turns[i].at >= h.firstRunAt + BackoffSum(Fails(h.turns, i))
  }

  /** job:failed is emitted for the last attempt only, and once. */
  ghost predicate GivesUpLast(h: History, i: nat)
    requires i < |h.turns|
  {
    h.turns[i].gaveUp == 0 || (h.turns[i].gaveUp == 1 && i + 1 == h.maxAttempts)
  }

  ghost predicate TurnsOk(h: History) {
    && |h.turns| <= h.maxAttempts
    && (forall i | 0 < i < |h.turns| :: Spaced(h, i))
    && (forall i | 0 <= i < |h.turns| :: BackedOff(h, i))
    && (forall i | 0 <= i < |h.turns| :: GivesUpLast(h, i))
  }

  /** An unlocked job that was handed out before is only picked again when its last turn allows it. */
  ghost predicate MayReturn(s: State, id: JobId, last: Turn)
    requires id in s.db.jobs
  {
    || (last.failedAt.Some? && last.at <= last.failedAt.value &&
        s.db.jobs[id].runAt >= last.failedAt.value + Backoff(s.db.jobs[id].attempts))
    || (s.clock > last.at + LOCK_EXPIRY &&
        forall w | w in s.picks && s.picks[w].job == id :: s.picks[w].at > last.at + LOCK_EXPIRY)
  }

  /** The row counts the turns, waited for their back-offs, and carries the lock of the last one if it is locked. */
  ghost predicate Tallies(job: Job, h: History) {
    && job.attempts == |h.turns|
    && job.maxAttempts == h.maxAttempts
    && job.runAt >= h.firstRunAt + BackoffSum(Fails(h.turns, |h.turns|))
    && (job.lockedBy.Some? ==>
          && h.turns != []
          && var last := h.turns[|h.turns| - 1];
             job.lockedBy == Some(last.worker) && job.lockedAt == Some(last.at) && last.failedAt.None?)
  }

  ghost predicate RowOk(s: State, id: JobId)
    requires id in s.db.jobs
  {
    id in s.history &&
    var job, turns := s.db.jobs[id], s.history[id].turns;
    && Tallies(job, s.history[id])
    && (turns != [] ==>
          if job.lockedBy.Some? then turns[|turns| - 1].at <= s.clock else MayReturn(s, id, turns[|turns| - 1]))
  }

  /** A worker processes the last turn it was given on its job, and has not reported on it yet. */
  ghost predicate TurnOk(history: map<JobId, History>, w: WorkerId, a: Active) {
    a.job in history &&
    var h := history[a.job];
    && 1 <= a.attempt <= |h.turns|
    && a.maxAttempts == h.maxAttempts
    && var turn := h.turns[a.attempt - 1];
    && turn.worker == w && turn.at == a.at && turn.failedAt.None?
    && (!a.failing ==> turn.gaveUp == 0)
    && (forall i | a.attempt <= i < |h.turns| :: h.turns[i].worker != w)
  }

  ghost predicate HistoryInv(s: State) {
    && (forall id | id in s.history :: TurnsOk(s.history[id]))
    && (forall id | id in s.db.jobs :: RowOk(s, id))
    && (forall w | w in s.active :: TurnOk(s.history, w, s.active[w]))
  }

  // Changing a history

  /** Fails depends on the failedAt of the turns it counts, alone. */
  lemma {:induction false} FailsSame(a: seq<Turn>, b: seq<Turn>, n: nat)
    requires n <= |a| && n <= |b| && forall i | 0 <= i < n :: a[i].failedAt == b[i].failedAt
    ensures Fails(a, n) == Fails(b, n)
  {
    if n > 0 {
      FailsSame(a, b, n - 1);
    }
  }

  lemma AppendKeepsTurns(h: History, turn: Turn)
    requires TurnsOk(h) && |h.turns| < h.maxAttempts && turn.gaveUp == 0
    requires turn.at >= h.firstRunAt + BackoffSum(Fails(h.turns, |h.turns|))
    requires h.turns != [] ==> Spaced(h.(turns := h.turns + [turn]), |h.turns|)
    ensures TurnsOk(h.(turns := h.turns + [turn]))
  {
    var g := h.(turns := h.turns + [turn]);
    forall i | 0 < i < |g.turns| ensures Spaced(g, i) { assert i < |h.turns| ==> Spaced(h, i); }
    forall i | 0 <= i < |g.turns|
      ensures BackedOff(g, i) && GivesUpLast(g, i)
    {
      FailsSame(g.turns, h.turns, i);
      assert i < |h.turns| ==> BackedOff(h, i) && GivesUpLast(h, i);
    }
  }

  lemma EditKeepsTurns(h: History, k: nat, turn: Turn)
    requires TurnsOk(h) && k < |h.turns|
    requires turn.at == h.turns[k].at
    requires GivesUpLast(h.(turns := h.turns[k := turn]), k)
    requires turn.failedAt == h.turns[k].failedAt || k == |h.turns| - 1
    ensures TurnsOk(h.(turns := h.turns[k := turn]))
  {
    var g := h.(turns := h.turns[k := turn]);
    forall i | 0 < i < |g.turns| ensures Spaced(g, i) { assert Spaced(h, i); }
    forall i | 0 <= i < |g.turns|
      ensures BackedOff(g, i) && GivesUpLast(g, i)
    {
      FailsSame(g.turns, h.turns, i);
      assert BackedOff(h, i) && GivesUpLast(h, i);
    }
  }

  lemma RowFrame(s: State, t: State, id: JobId)
    requires id in s.db.jobs && RowOk(s, id)
    requires id in t.db.jobs && t.db.jobs[id] == s.db.jobs[id]
    requires id in t.history && t.history[id] == s.history[id]
    requires s.clock <= t.clock
    requires forall w | w in t.picks && t.picks[w].job == id ::
      (w in s.picks && s.picks[w] == t.picks[w]) || t.picks[w].at == s.clock
    ensures RowOk(t, id)
  {}

  /** What a report of worker `w` on its turn does to the history: one turn is edited. */
  ghost predicate Edited(history: map<JobId, History>, history': map<JobId, History>, a: Active, turn: Turn) {
    && a.job in history && 1 <= a.attempt <= |history[a.job].turns|
    && history' == history[a.job := history[a.job].(turns := history[a.job].turns[a.attempt - 1 := turn])]
  }

  lemma EditKeepsHistory(s: State, t: State, w: WorkerId, turn: Turn)
    requires HistoryInv(s) && w in s.active && TurnOk(s.history, w, s.active[w])
    requires Edited(s.history, t.history, s.active[w], turn) && turn.worker == w
    requires TurnsOk(t.history[s.active[w].job])
    requires t.picks == s.picks && t.clock == s.clock
    requires forall v | v in t.active && v != w :: v in s.active && t.active[v] == s.active[v]
    requires w in t.active ==> TurnOk(t.history, w, t.active[w])
    requires forall id | id in t.db.jobs ::
      if id == s.active[w].job then RowOk(t, id) else id in s.db.jobs && t.db.jobs[id] == s.db.jobs[id]
    ensures HistoryInv(t)
  {
    forall id | id in t.db.jobs ensures RowOk(t, id) { if id != s.active[w].job { RowFrame(s, t, id); } }
    forall v | v in t.active
      ensures TurnOk(t.history, v, t.active[v])
    {
      assert v != w ==> TurnOk(s.history, v, s.active[v]);
    }
  }

  // The three steps that write the history

  /** A picked job has waited for its back-off, or its last lock had expired before the pick. */
  lemma PickWaited(s: State, w: WorkerId, g: History)
    requires w in s.picks && PickOk(s, w) && RowOk(s, s.picks[w].job)
    requires var h := s.history[s.picks[w].job]; g == h.(turns := h.turns + [Turn(w, s.picks[w].at, None, 0)])
    ensures |g.turns| > 1 ==> Spaced(g, |g.turns| - 1)
  {}

  lemma CommitAddsTurn(s: State, w: WorkerId)
    requires HistoryInv(s) && w in s.picks && PickOk(s, w)
    ensures var t, id := Commit(s, w), s.picks[w].job;
      && id in s.history
      && t.history == s.history[id := s.history[id].(turns := s.history[id].turns + [Turn(w, s.picks[w].at, None, 0)])]
      && TurnsOk(t.history[id])
  {
    var p := s.picks[w];
    assert RowOk(s, p.job);
    var h, turn := s.history[p.job], Turn(w, p.at, None, 0);
    PickWaited(s, w, h.(turns := h.turns + [turn]));
    AppendKeepsTurns(h, turn);
  }

  lemma CommitKeepsRow(s: State, w: WorkerId)
    requires HistoryInv(s) && w in s.picks && PickOk(s, w)
    ensures RowOk(Commit(s, w), s.picks[w].job)
  {
    var id := s.picks[w].job;
    assert RowOk(s, id);
    CommitAddsTurn(s, w);
    FailsSame(Commit(s, w).history[id].turns, s.history[id].turns, |s.history[id].turns|);
  }

  lemma CommitKeepsOtherRow(s: State, w: WorkerId, id: JobId)
    requires HistoryInv(s) && w in s.picks && PickOk(s, w) && id in s.db.jobs && id != s.picks[w].job
    ensures RowOk(Commit(s, w), id)
  {
    assert RowOk(s, id);
    RowFrame(s, Commit(s, w), id);
  }

  lemma CommitKeepsTurn(s: State, w: WorkerId, v: WorkerId)
    requires HistoryInv(s) && w in s.picks && PickOk(s, w) && v in Commit(s, w).active
    ensures TurnOk(Commit(s, w).history, v, Commit(s, w).active[v])
  {
    assert v != w ==> TurnOk(s.history, v, s.active[v]);
    CommitAddsTurn(s, w);
    assert RowOk(s, s.picks[w].job);
  }

  lemma CommitKeepsHistory(s: State, w: WorkerId)
    requires HistoryInv(s) && w in s.picks && PickOk(s, w)
    ensures HistoryInv(Commit(s, w))
  {
    var t := Commit(s, w);
    CommitAddsTurn(s, w);
    CommitKeepsRow(s, w);
    forall id | id in t.db.jobs ensures RowOk(t, id) { if id != s.picks[w].job { CommitKeepsOtherRow(s, w, id); } }
    forall v | v in t.active ensures TurnOk(t.history, v, t.active[v]) { CommitKeepsTurn(s, w, v); }
  }

  lemma GiveUpEdits(s: State, w: WorkerId)
    requires HistoryInv(s) && w in s.active && !s.active[w].failing
    ensures var a, t := s.active[w], HandlerFails(s, w);
      && TurnOk(s.history, w, a)
      && var was := s.history[a.job].turns[a.attempt - 1];
      && var turn := if a.attempt >= a.maxAttempts then was.(gaveUp := was.gaveUp + 1) else was;
      && Edited(s.history, t.history, a, turn)
      && TurnsOk(t.history[a.job])
      && t == s.(active := s.active[w := a.(failing := true)], history := t.history)
  {
    var a := s.active[w];
    assert TurnOk(s.history, w, a);
    var h, k := s.history[a.job], a.attempt - 1;
    var turn := if a.attempt >= a.maxAttempts then h.turns[k].(gaveUp := h.turns[k].gaveUp + 1) else h.turns[k];
    assert GivesUpLast(h, k);
    EditKeepsTurns(h, k, turn);
    assert h.turns[k := h.turns[k]] == h.turns;
  }

  /** The histories differ in nothing but job:failed events. */
  ghost predicate SameReports(h: History, g: History) {
    && h.maxAttempts == g.maxAttempts && h.firstRunAt == g.firstRunAt && |h.turns| == |g.turns|
    && forall i | 0 <= i < |h.turns| :: h.turns[i] == g.turns[i].(gaveUp := h.turns[i].gaveUp)
  }

  lemma SameReportsTally(job: Job, h: History, g: History)
    requires Tallies(job, h) && SameReports(h, g)
    ensures Tallies(job, g)
  {
    FailsSame(h.turns, g.turns, |h.turns|);
  }

  lemma SameReportsRow(s: State, t: State, id: JobId)
    requires id in s.db.jobs && id in s.history && id in t.history
    requires RowOk(s, id) && SameReports(s.history[id], t.history[id])
    requires t.db == s.db && t.picks == s.picks && t.clock == s.clock
    ensures RowOk(t, id)
  {
    SameReportsTally(s.db.jobs[id], s.history[id], t.history[id]);
  }

  lemma EditedReports(history: map<JobId, History>, history': map<JobId, History>, a: Active, turn: Turn)
    requires Edited(history, history', a, turn)
    requires turn == history[a.job].turns[a.attempt - 1].(gaveUp := turn.gaveUp)
    ensures SameReports(history[a.job], history'[a.job])
  {}

  lemma GiveUpKeepsRow(s: State, t: State, a: Active, turn: Turn)
    requires a.job in s.db.jobs && RowOk(s, a.job) && Edited(s.history, t.history, a, turn)
    requires turn == s.history[a.job].turns[a.attempt - 1].(gaveUp := turn.gaveUp)
    requires t.db == s.db && t.picks == s.picks && t.clock == s.clock
    ensures RowOk(t, a.job)
  {
    EditedReports(s.history, t.history, a, turn);
    SameReportsRow(s, t, a.job);
  }

  lemma GiveUpKeepsTurn(s: State, w: WorkerId)
    requires HistoryInv(s) && w in s.active && !s.active[w].failing
    ensures TurnOk(HandlerFails(s, w).history, w, HandlerFails(s, w).active[w])
  {
    GiveUpEdits(s, w);
  }

  lemma GiveUpKeepsHistory(s: State, w: WorkerId)
    requires HistoryInv(s) && w in s.active && !s.active[w].failing
    ensures HistoryInv(HandlerFails(s, w))
  {
    var t, a := HandlerFails(s, w), s.active[w];
    GiveUpEdits(s, w);
    var turn := t.history[a.job].turns[a.attempt - 1];
    GiveUpKeepsTurn(s, w);
    if a.job in s.db.jobs { GiveUpKeepsRow(s, t, a, turn); }
    EditKeepsHistory(s, t, w, turn);
  }

  /** A FailJob that matches is the report on the job's last turn. */
  lemma FailEdits(s: State, w: WorkerId, message: string)
    requires HistoryInv(s) && Enabled(s, FailJob(w, message)) && FailMatches(s.db, w, s.active[w].job)
    ensures var a, t := s.active[w], FailedRelease(s, w, message);
      && TurnOk(s.history, w, a)
      && a.attempt == |s.history[a.job].turns|
      && Edited(s.history, t.history, a, s.history[a.job].turns[a.attempt - 1].(failedAt := Some(s.clock)))
      && TurnsOk(t.history[a.job])
  {
    var a := s.active[w];
    assert TurnOk(s.history, w, a) && RowOk(s, a.job);
    var h, k := s.history[a.job], a.attempt - 1;
    assert GivesUpLast(h, k);
    EditKeepsTurns(h, k, h.turns[k].(failedAt := Some(s.clock)));
  }

  /** The last turn failing counts one more, and its back-off is at least that many fails' next one. */
  lemma FailsOneMore(turns: seq<Turn>, turn: Turn)
    requires turns != [] && turns[|turns| - 1].failedAt.None? && turn.failedAt.Some?
    ensures var n := |turns|; var k := Fails(turns, n);
      Fails(turns[n - 1 := turn], n) == k + 1 && BackoffSum(k + 1) <= BackoffSum(k) + Backoff(n)
  {
    var n := |turns|;
    FailsSame(turns, turns[n - 1 := turn], n - 1);
    BackoffMonotone(Fails(turns, n) + 1, n);
  }

  lemma FailKeepsRow(s: State, w: WorkerId, message: string)
    requires HistoryInv(s) && Enabled(s, FailJob(w, message)) && FailMatches(s.db, w, s.active[w].job)
    ensures RowOk(FailedRelease(s, w, message), s.active[w].job)
  {
    var a := s.active[w];
    FailEdits(s, w, message);
    assert RowOk(s, a.job);
    FailsOneMore(s.history[a.job].turns, s.history[a.job].turns[a.attempt - 1].(failedAt := Some(s.clock)));
  }

  lemma FailKeepsHistory(s: State, w: WorkerId, message: string)
    requires HistoryInv(s) && Enabled(s, FailJob(w, message))
    ensures HistoryInv(FailedRelease(s, w, message))
  {
    var t := FailedRelease(s, w, message);
    var a := s.active[w];
    if FailMatches(s.db, w, a.job) {
      FailEdits(s, w, message);
      FailKeepsRow(s, w, message);
      EditKeepsHistory(s, t, w, t.history[a.job].turns[a.attempt - 1]);
    } else {
      forall id | id in t.db.jobs ensures RowOk(t, id) { RowFrame(s, t, id); }
    }
  }

  // The steps that do not

  lemma ResetKeepsRow(s: State, id: JobId)
    requires PicksOk(s) && id in s.db.jobs && RowOk(s, id)
    ensures RowOk(Next(s, ResetLockedAt), id)
  {
    assert forall w | w in s.picks :: PickOk(s, w);
  }

  lemma StepKeepsRow(s: State, step: Step, id: JobId)
    requires PicksOk(s) && HistoryInv(s) && Enabled(s, step) && id in Next(s, step).db.jobs
    requires !step.CommitPick? && !step.HandlerError? && !step.FailJob?
    ensures RowOk(Next(s, step), id)
  {
    if id in s.db.jobs {
      assert RowOk(s, id);
      if step.ResetLockedAt? {
        ResetKeepsRow(s, id);
      } else {
        RowFrame(s, Next(s, step), id);
      }
    }
  }

  lemma StepKeepsTurn(s: State, step: Step, v: WorkerId)
    requires HistoryInv(s) && Enabled(s, step) && v in Next(s, step).active
    requires !step.CommitPick? && !step.HandlerError? && !step.FailJob?
    ensures TurnOk(Next(s, step).history, v, Next(s, step).active[v])
  {
    assert TurnOk(s.history, v, s.active[v]);
  }

  lemma StepKeepsTurns(s: State, step: Step)
    requires HistoryInv(s) && Enabled(s, step)
    requires !step.CommitPick? && !step.HandlerError? && !step.FailJob?
    ensures forall id | id in Next(s, step).history :: TurnsOk(Next(s, step).history[id])
  {}

  lemma QuietStepKeepsHistory(s: State, step: Step)
    requires PicksOk(s) && HistoryInv(s) && Enabled(s, step)
    requires !step.CommitPick? && !step.HandlerError? && !step.FailJob?
    ensures HistoryInv(Next(s, step))
  {
    var t := Next(s, step);
    StepKeepsTurns(s, step);
    forall id | id in t.db.jobs ensures RowOk(t, id) { StepKeepsRow(s, step, id); }
    forall v | v in t.active ensures TurnOk(t.history, v, t.active[v]) { StepKeepsTurn(s, step, v); }
  }

  lemma StepKeepsHistory(s: State, step: Step)
    requires PicksOk(s) && HistoryInv(s) && Enabled(s, step)
    ensures HistoryInv(Next(s, step))
  {
    match step
    case CommitPick(w) => assert PickOk(s, w); CommitKeepsHistory(s, w);
    case HandlerError(w) => GiveUpKeepsHistory(s, w);
    case FailJob(w, message) => FailKeepsHistory(s, w, message);
    case _ => QuietStepKeepsHistory(s, step);
  }
}
