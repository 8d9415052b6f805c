/**
 A job that waits for queue capacity when a drain sweeps: its pause request is answered by nobody, and
 the drain cannot finish.
 */
module DrainStranding {
  import opened DeploymentDrain
  import opened DrainResults

  /** No creator, worker or verification has the job in hand. */
  ghost predicate Unowned(s: State, j: JobId) {
    j !in s.offering && j !in s.admitted && j !in s.executing && j !in s.verifying
  }

  ghost predicate Asked(rows: Rows, j: JobId, w: Website) {
    rows.active && j in rows.jobs && rows.jobs[j].status == PauseRequested && j in rows.tracked
    && rows.jobs[j].website == w
  }

  /** A job whose pause request has no worker to acknowledge it. */
  ghost predicate Stranded(s: State, j: JobId, w: Website) {
    Asked(s.rows, j, w) && Unowned(s, j)
  }

  /** A worker restart that does not protect j, a cancellation, verification or deletion of j, a job of website w. */
  predicate Frees(step: Step, j: JobId, w: Website) {
    (step.Recover? && j !in step.protected) || step == UserCancel(j) || step == Verify(j) || step == DeleteWebsite(w)
  }

  lemma WriteToOther(s: State, t: State, k: JobId, j: JobId, w: Website)
    requires Stranded(s, j, w) && Unowned(t, j) && k != j && JobWrite(s, t, k)
    ensures Stranded(t, j, w)
  {
  }

  lemma CreateStranded(s: State, k: JobId, site: Website, chosen: set<JobId>, protected: set<JobId>, j: JobId,
                       w: Website)
    requires Stranded(s, j, w)
    ensures Stranded(AfterCreate(s, k, site), j, w)
    ensures Stranded(s.(rows := DispatchRows(s.rows, chosen)), j, w)
    ensures j in protected ==> Stranded(s.(rows := RecoverRows(s.rows, protected)), j, w)
  {
  }

  lemma IdleOnStranded(s: State, step: Step, j: JobId, w: Website)
    requires Stranded(s, j, w) && !Frees(step, j, w) && JobStep(step) && step.job == j
    ensures Next(s, step) == s
  {
    hide SetStatus, TrackPaused, Claim, OtherRunning;
  }

  lemma StillUnowned(s: State, step: Step, j: JobId)
    requires Unowned(s, j) && JobStep(step) && step.job != j
    ensures Unowned(Next(s, step), j)
  {
    hide SetStatus, TrackPaused, Claim, OtherRunning, HasStatus;
    if step.Gate? || step.Check? || step.Conclude? { WorkerUnowned(s, step, j); }
  }

  lemma WorkerUnowned(s: State, step: Step, j: JobId)
    requires Unowned(s, j) && (step.Gate? || step.Check? || step.Conclude?) && step.job != j
    ensures Unowned(Next(s, step), j)
  {
    hide SetStatus, TrackPaused, Claim, OtherRunning;
  }

  lemma JobStepStranded(s: State, step: Step, j: JobId, w: Website)
    requires Stranded(s, j, w) && !Frees(step, j, w) && JobStep(step)
    ensures Stranded(Next(s, step), j, w)
  {
    hide Next, JobWrite, Asked, Unowned, Frees;
    if step.job == j {
      IdleOnStranded(s, step, j, w);
    } else {
      StillUnowned(s, step, j);
      JobWrites(s, step);
      WriteToOther(s, Next(s, step), step.job, j, w);
    }
  }

  lemma DrainStranded(s: State, step: Step, j: JobId, w: Website)
    requires Stranded(s, j, w) && (step.Activate? || step.Sweep? || step.Finish?)
    ensures Stranded(Next(s, step), j, w)
    ensures Next(s, Finish) == s
  {
    assert !SafeToFinish(s.rows);
  }

  lemma FreedNow(s: State, step: Step, j: JobId, w: Website)
    requires Stranded(s, j, w) && Frees(step, j, w)
    ensures !Stranded(Next(s, step), j, w)
  {
  }

  lemma DeletionStranded(s: State, site: Website, j: JobId, w: Website)
    requires Stranded(s, j, w) && site != w
    ensures Stranded(AfterDeleteWebsite(s, site), j, w)
  {
  }

  /** A stranded job is freed by exactly these steps. */
  lemma StrandedIff(s: State, step: Step, j: JobId, w: Website)
    requires Stranded(s, j, w)
    ensures Stranded(Next(s, step), j, w) <==> !Frees(step, j, w)
  {
    hide Stranded, AfterCreate, AfterDeleteWebsite, DispatchRows, RecoverRows, SweepRows, FinishRows;
    if Frees(step, j, w) {
      FreedNow(s, step, j, w);
    } else if step.Activate? || step.Sweep? || step.Finish? {
      DrainStranded(s, step, j, w);
    } else if JobStep(step) {
      JobStepStranded(s, step, j, w);
    } else if step.DeleteWebsite? {
      DeletionStranded(s, step.website, j, w);
    } else {
      var site := if step.Create? then step.website else 0;
      var chosen := if step.Dispatch? then step.jobs else {};
      var protected := if step.Recover? then step.protected else {};
      CreateStranded(s, if step.Create? then step.job else j, site, chosen, protected, j, w);
    }
  }

  ghost predicate NeverFreed(steps: seq<Step>, j: JobId, w: Website) {
    forall i :: 0 <= i < |steps| ==> !Frees(steps[i], j, w)
  }

  /** At every point of the run j is stranded, and so a finish would be refused. */
  ghost predicate AlwaysStranded(s: State, steps: seq<Step>, j: JobId, w: Website) {
    forall n | 0 <= n <= |steps| :: Stranded(Run(s, steps[..n]), j, w)
  }

  lemma AlwaysStrandedSnoc(s: State, steps: seq<Step>, step: Step, j: JobId, w: Website)
    ensures AlwaysStranded(s, steps + [step], j, w) <==>
      AlwaysStranded(s, steps, j, w) && Stranded(Next(Run(s, steps), step), j, w)
  {
    hide Stranded, Next, Run;
    var more := steps + [step];
    assert more[..|more|] == more;
    RunOne(s, steps, step);
    assert forall n | 0 <= n <= |steps| :: more[..n] == steps[..n];
    if AlwaysStranded(s, more, j, w) {
      assert forall n | 0 <= n <= |steps| :: Stranded(Run(s, more[..n]), j, w);
    }
    if AlwaysStranded(s, steps, j, w) && Stranded(Next(Run(s, steps), step), j, w) {
      forall n | 0 <= n <= |more| ensures Stranded(Run(s, more[..n]), j, w) {
        if n <= |steps| { assert Stranded(Run(s, steps[..n]), j, w); }
      }
    }
  }

  lemma {:induction false} StrandedRunIff(s: State, steps: seq<Step>, j: JobId, w: Website)
    requires Stranded(s, j, w)
    ensures AlwaysStranded(s, steps, j, w) <==> NeverFreed(steps, j, w)
  {
    hide Stranded, Next, Frees;
    if steps == [] {
      assert Run(s, []) == s && steps[..0] == [];
    } else {
      hide Run, AlwaysStranded;
      var before, last := steps[..|steps| - 1], steps[|steps| - 1];
      assert steps == before + [last];
      AlwaysStrandedSnoc(s, before, last, j, w);
      StrandedRunIff(s, before, j, w);
      if AlwaysStranded(s, before, j, w) {
        StrandedNow(s, before, j, w);
        StrandedIff(Run(s, before), last, j, w);
      }
    }
  }

  lemma StrandedNow(s: State, steps: seq<Step>, j: JobId, w: Website)
    requires AlwaysStranded(s, steps, j, w)
    ensures Stranded(Run(s, steps), j, w)
  {
    assert steps[..|steps|] == steps;
  }

  /** The job waits for queue capacity in a drain whose next sweep will catch it. */
  ghost predicate Caught(s: State, j: JobId, w: Website) {
    && s.draining > 0 && s.rows.active && Unowned(s, j)
    && j in s.rows.jobs && j !in s.rows.tracked
    && s.rows.jobs[j].status == WaitingForCapacity && s.rows.jobs[j].website == w
  }

  /** A sweep asks jobs that wait for queue capacity to pause, like running ones. */
  lemma SweepStrandsWaitingJob(s: State, j: JobId, w: Website)
    requires Caught(s, j, w)
    ensures Stranded(Next(s, Sweep), j, w)
  {
  }

  /**
   A waiting job that a sweep catches is stranded from then on exactly as long as no step frees it,
   and for that long every finish is refused.
   */
  lemma WaitingJobBlocksFinish(s: State, steps: seq<Step>, j: JobId, w: Website)
    requires Caught(s, j, w)
    ensures AlwaysStranded(Next(s, Sweep), steps, j, w) <==> NeverFreed(steps, j, w)
    ensures
      var t := Run(Next(s, Sweep), steps);
      NeverFreed(steps, j, w) ==> Next(t, Finish) == t
  {
    hide Next, Run, AlwaysStranded, NeverFreed, Stranded;
    SweepStrandsWaitingJob(s, j, w);
    StrandedRunIff(Next(s, Sweep), steps, j, w);
    if NeverFreed(steps, j, w) {
      StrandedNow(Next(s, Sweep), steps, j, w);
      DrainStranded(Run(Next(s, Sweep), steps), Finish, j, w);
    }
  }

  /** Such a job is there in a reachable drain. */
  lemma WaitingJobCaught()
    ensures Caught(Run(START, [Create(0, 0), Offer(0, false), Activate]), 0, 0)
  {
    RunThree(START, Create(0, 0), Offer(0, false), Activate);
    var offered := Next(Next(START, Create(0, 0)), Offer(0, false));
    assert offered.rows.jobs == map[0 := Job(0, WaitingForCapacity, 0)] && offered.offering == multiset{};
    hide Run;
  }
}
