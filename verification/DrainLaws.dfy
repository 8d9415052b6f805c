/**
 What the transactions of the drain do to a job, status by status, and what several of them do together.
 */
module DrainLaws {
  import opened DeploymentDrain
  import opened DrainResults

  /** Only the status of the job differs. */
  predicate OnlyStatus(before: Job, after: Job, status: Status) {
    after.website == before.website && after.attempts == before.attempts && after.status == status
  }

  /** A sweep, for every job: what it writes and tracks. */
  lemma SweepLaw(rows: Rows, j: JobId)
    requires j in rows.jobs
    ensures
      var before, swept := rows.jobs[j], SweepRows(rows);
      && swept.active == rows.active && swept.jobs.Keys == rows.jobs.Keys && rows.tracked <= swept.tracked
      && (j in rows.tracked ==> swept.jobs[j] == before)
      && (j !in rows.tracked && before.status == Pending ==>
          OnlyStatus(before, swept.jobs[j], Paused) && j in swept.tracked)
      && (j !in rows.tracked && before.status == Running ==>
          OnlyStatus(before, swept.jobs[j], PauseRequested) && j in swept.tracked)
      && (j !in rows.tracked && before.status == WaitingForCapacity ==>
          OnlyStatus(before, swept.jobs[j], PauseRequested) && j in swept.tracked)
      && (j !in rows.tracked && before.status !in {Pending, Running, WaitingForCapacity} ==>
          swept.jobs[j] == before && j !in swept.tracked)
  {
  }

  /** A sweep that asks a running or waiting job to pause leaves the drain unsafe until the job is dealt with. */
  lemma SweptIsUnsafe(rows: Rows, j: JobId)
    requires j in rows.jobs && j !in rows.tracked && rows.jobs[j].status in {Running, WaitingForCapacity}
    ensures !SafeToFinish(SweepRows(rows))
  {
    SweepLaw(rows, j);
    assert IsUnsafe(SweepRows(rows).jobs[j].status);
  }

  /** What keeps a drain from finishing is exactly a running or pause-requested job. */
  lemma SafeLaw(rows: Rows)
    ensures SafeToFinish(rows) <==> forall j :: j in rows.jobs ==> rows.jobs[j].status !in {Running, PauseRequested}
    ensures FinishSucceeds(rows) <==> rows.active && SafeToFinish(rows)
  {
  }

  /** A finish, for every job. */
  lemma FinishLaw(rows: Rows, j: JobId)
    requires j in rows.jobs
    ensures
      var before, finished := rows.jobs[j], FinishRows(rows);
      var succeeds := rows.active && forall k :: k in rows.jobs ==> rows.jobs[k].status !in {Running, PauseRequested};
      && (!succeeds ==> finished == rows)
      && (succeeds ==> !finished.active && finished.tracked == {} && finished.jobs.Keys == rows.jobs.Keys)
      && (succeeds && j in rows.tracked && before.status == Paused ==> OnlyStatus(before, finished.jobs[j], Pending))
      && (succeeds && (j !in rows.tracked || before.status != Paused) ==> finished.jobs[j] == before)
  {
    SafeLaw(rows);
  }

  /** A recovery, for every job. */
  lemma RecoverLaw(rows: Rows, protected: set<JobId>, j: JobId)
    requires j in rows.jobs
    ensures
      var before, recovered := rows.jobs[j], RecoverRows(rows, protected);
      && recovered.active == rows.active && recovered.tracked == rows.tracked
      && recovered.jobs.Keys == rows.jobs.Keys
      && (j in protected ==> recovered.jobs[j] == before)
      && (j !in protected && before.status in {Running, PauseRequested} ==>
          OnlyStatus(before, recovered.jobs[j], Paused))
      && (j !in protected && before.status == CancelRequested ==> OnlyStatus(before, recovered.jobs[j], Cancelled))
      && (before.status !in {Running, PauseRequested, CancelRequested} ==> recovered.jobs[j] == before)
  {
  }

  /** A dispatch, for every job. */
  lemma DispatchLaw(rows: Rows, chosen: set<JobId>, j: JobId)
    requires j in rows.jobs
    ensures
      var before, dispatched := rows.jobs[j], DispatchRows(rows, chosen);
      && dispatched.active == rows.active && dispatched.tracked == rows.tracked
      && dispatched.jobs.Keys == rows.jobs.Keys
      && (j in chosen && before.status == WaitingForCapacity ==> OnlyStatus(before, dispatched.jobs[j], Pending))
      && (j !in chosen || before.status != WaitingForCapacity ==> dispatched.jobs[j] == before)
  {
  }

  /** Pausing a job in a drain, and claiming one outside, for every job. */
  lemma GateLaw(rows: Rows, job: JobId, j: JobId)
    requires job in rows.jobs && j in rows.jobs
    ensures
      var before, paused, claimed := rows.jobs[j], TrackPaused(rows, job), Claim(rows, job);
      && paused.active == rows.active && paused.tracked == rows.tracked + {job}
      && claimed.active == rows.active && claimed.tracked == rows.tracked
      && (j == job ==> OnlyStatus(before, paused.jobs[j], Paused))
      && (j == job ==> claimed.jobs[j] == Job(before.website, Running, before.attempts + 1))
      && (j != job ==> paused.jobs[j] == before && claimed.jobs[j] == before)
  {
  }

  // ---------- steps together ----------

  /** A worker answers a pause or cancel request at its next check, and else goes on. */
  lemma CheckAnswers(s: State, j: JobId)
    requires j in s.executing && j in s.rows.jobs
    ensures
      var before, t := s.rows.jobs[j].status, Next(s, Check(j));
      && (before == PauseRequested ==> t.rows.jobs[j].status == Paused && t.executing == s.executing - multiset{j})
      && (before in {CancelRequested, Cancelled} ==>
          t.rows.jobs[j].status == Cancelled && t.executing == s.executing - multiset{j})
      && (before !in {PauseRequested, CancelRequested, Cancelled} ==> t == s)
  {
  }

  ghost function StatusOf(s: State, j: JobId): Status
    requires j in s.rows.jobs
  {
    s.rows.jobs[j].status
  }

  /** A user's requests to a running job wait for its worker; what no worker runs is stopped or restarted at once. */
  lemma UserPauses(s: State, j: JobId)
    requires j in s.rows.jobs
    ensures
      var t := Next(s, UserPause(j));
      j in t.rows.jobs && StatusOf(t, j) == if StatusOf(s, j) == Running then PauseRequested else StatusOf(s, j)
  {
  }

  lemma UserCancels(s: State, j: JobId)
    requires j in s.rows.jobs
    ensures
      var before, t := StatusOf(s, j), Next(s, UserCancel(j));
      && j in t.rows.jobs
      && (before in {WaitingForCapacity, Pending, Paused} ==> StatusOf(t, j) == Cancelled)
      && (before in {Running, PauseRequested} ==> StatusOf(t, j) == CancelRequested)
      && (before in {CancelRequested, Cancelled, Succeeded, PartiallySucceeded, Failed} ==> StatusOf(t, j) == before)
  {
  }

  lemma UserResumes(s: State, j: JobId)
    requires j in s.rows.jobs
    ensures
      var before, t := StatusOf(s, j), Next(s, UserResume(j));
      && j in t.rows.jobs
      && StatusOf(t, j) == (if before in {Paused, Failed, Cancelled} then Pending else before)
      && (before in {Paused, Failed, Cancelled} ==> j in t.offering)
  {
  }

  /** A requeue from the dead letters restarts any job that nobody runs or is asked to stop, and no other job. */
  lemma RequeueLaw(s: State, j: JobId, queued: bool, k: JobId)
    requires j in s.rows.jobs && k in s.rows.jobs
    ensures
      var before, t := s.rows.jobs[k], Next(s, Requeue(j, queued));
      && t.(rows := s.rows) == s && k in t.rows.jobs
      && t.rows.active == s.rows.active && t.rows.tracked == s.rows.tracked
      && (k == j && queued && before.status !in {Running, PauseRequested, CancelRequested} ==>
          OnlyStatus(before, t.rows.jobs[k], Pending))
      && (k != j || !queued || before.status in {Running, PauseRequested, CancelRequested} ==>
          t.rows.jobs[k] == before)
  {
  }

  /** A worker's final write is one of three statuses and ends its work, whatever was asked of the job meanwhile. */
  lemma ConcludeLaw(s: State, j: JobId, outcome: Status)
    requires j in s.executing && j in s.rows.jobs
    ensures
      var t := Next(s, Conclude(j, outcome));
      && (outcome in {Succeeded, PartiallySucceeded, Failed} ==>
          && t.executing == s.executing - multiset{j}
          && j in t.rows.jobs && OnlyStatus(s.rows.jobs[j], t.rows.jobs[j], outcome))
      && (outcome !in {Succeeded, PartiallySucceeded, Failed} ==> t == s)
  {
  }

  /** The round trip of a running job through a drain: asked to pause, paused by its worker, pending again. */
  lemma DrainRoundTrip(s: State, j: JobId)
    requires s.draining > 0 && s.rows.active && j in s.executing && j in s.rows.jobs && j !in s.rows.tracked
    requires s.rows.jobs[j].status == Running
    requires forall k :: k in s.rows.jobs && k != j ==>
               s.rows.jobs[k].status !in {Running, PauseRequested, WaitingForCapacity}
    ensures
      var swept := Next(s, Sweep);
      var paused := Next(swept, Check(j));
      var finished := Next(paused, Finish);
      && swept.rows.jobs[j].status == PauseRequested && Next(swept, Finish) == swept
      && j in paused.rows.jobs && paused.rows.jobs[j].status == Paused && j in paused.rows.tracked
      && j in finished.rows.jobs && finished.rows.jobs[j] == s.rows.jobs[j].(status := Pending) && !finished.rows.active
  {
    var swept := Next(s, Sweep);
    SweepLaw(s.rows, j);
    SweptIsUnsafe(s.rows, j);
    assert swept.rows == SweepRows(s.rows) && swept.executing == s.executing;
    forall k | k in s.rows.jobs && k != j ensures swept.rows.jobs[k].status !in {Running, PauseRequested} {
      SweepLaw(s.rows, k);
    }
    hide SweepRows, SweptJobs;
    PausedThenFinished(swept, j);
  }

  lemma PausedThenFinished(s: State, j: JobId)
    requires s.rows.active && j in s.executing && j in s.rows.jobs && j in s.rows.tracked
    requires s.rows.jobs[j].status == PauseRequested
    requires forall k :: k in s.rows.jobs && k != j ==> s.rows.jobs[k].status !in {Running, PauseRequested}
    ensures
      var paused := Next(s, Check(j));
      var finished := Next(paused, Finish);
      && j in paused.rows.jobs && paused.rows.jobs[j] == s.rows.jobs[j].(status := Paused) && j in paused.rows.tracked
      && j in finished.rows.jobs && finished.rows.jobs[j] == s.rows.jobs[j].(status := Pending) && !finished.rows.active
  {
    var paused := Next(s, Check(j));
    assert paused.rows == SetStatus(s.rows, j, Paused);
    FinishLaw(paused.rows, j);
  }

  /** A recovery that protects nobody leaves nothing that keeps a drain from finishing. */
  lemma RecoveryUnblocks(rows: Rows)
    ensures SafeToFinish(RecoverRows(rows, {}))
  {
    forall j | j in rows.jobs ensures !IsUnsafe(RecoverRows(rows, {}).jobs[j].status) {
      RecoverLaw(rows, {}, j);
    }
  }
}
