/**
 What a drain guarantees over whole runs, and the two schedules on which it does not: a sweep that
 commits after the drain was already finished, and a verification that starts without the gate.
 */
module DrainResults {
  import opened DeploymentDrain

  lemma RunOne(s: State, steps: seq<Step>, step: Step)
    ensures Run(s, steps + [step]) == Next(Run(s, steps), step)
  {
    assert (steps + [step])[..|steps|] == steps;
  }

  // ---------- when a swept drain is safe ----------

  /** No job runs, at any point of the run. */
  ghost predicate NeverRunning(s: State, steps: seq<Step>) {
    forall n | 0 <= n <= |steps| :: NoneRunning(Run(s, steps[..n]).rows)
  }

  /** Every verification is of a job that does not exist when it starts. */
  ghost predicate NothingVerified(s: State, steps: seq<Step>) {
    forall i :: 0 <= i < |steps| && steps[i].Verify? ==> steps[i].job !in Run(s, steps[..i]).rows.jobs
  }

  lemma VerifyRunsIff(s: State, j: JobId)
    requires NoneRunning(s.rows)
    ensures NoneRunning(Next(s, Verify(j)).rows) <==> j !in s.rows.jobs
  {
    if j in s.rows.jobs { assert Next(s, Verify(j)).rows.jobs[j].status == Running; }
  }

  lemma NeverRunningSnoc(s: State, steps: seq<Step>, step: Step)
    ensures NeverRunning(s, steps + [step]) <==> NeverRunning(s, steps) && NoneRunning(Next(Run(s, steps), step).rows)
  {
    hide NoneRunning, Next, Run;
    var more := steps + [step];
    assert more[..|more|] == more;
    RunOne(s, steps, step);
    assert forall n | 0 <= n <= |steps| :: more[..n] == steps[..n];
    if NeverRunning(s, more) {
      assert forall n | 0 <= n <= |steps| :: NoneRunning(Run(s, more[..n]).rows);
    }
    if NeverRunning(s, steps) && NoneRunning(Next(Run(s, steps), step).rows) {
      forall n | 0 <= n <= |more| ensures NoneRunning(Run(s, more[..n]).rows) {
        if n <= |steps| { assert NoneRunning(Run(s, steps[..n]).rows); }
      }
    }
  }

  lemma NothingVerifiedSnoc(s: State, steps: seq<Step>, step: Step)
    ensures NothingVerified(s, steps + [step]) <==>
      NothingVerified(s, steps) && (step.Verify? ==> step.job !in Run(s, steps).rows.jobs)
  {
    hide Run;
    var more := steps + [step];
    assert forall i | 0 <= i < |steps| :: more[i] == steps[i] && more[..i] == steps[..i];
    assert more[..|steps|] == steps && more[|steps|] == step;
  }

  lemma UnreleasedPrefix(s: State, steps: seq<Step>, step: Step)
    requires Unreleased(s, steps + [step])
    ensures Unreleased(s, steps)
    ensures step == Finish ==> !FinishSucceeds(Run(s, steps).rows)
  {
    hide Run, FinishSucceeds;
    var more := steps + [step];
    assert forall i | 0 <= i < |steps| :: more[i] == steps[i] && more[..i] == steps[..i];
    assert more[..|steps|] == steps && more[|steps|] == step;
  }

  lemma VerifyOfNothing(s: State, j: JobId)
    requires j !in s.rows.jobs
    ensures Next(s, Verify(j)) == s
  {
  }

  lemma {:induction false} StaysSwept(s: State, steps: seq<Step>)
    requires Invariant(s) && s.swept && Unreleased(s, steps) && NothingVerified(s, steps)
    ensures Invariant(Run(s, steps)) && Run(s, steps).swept && NeverRunning(s, steps)
  {
    hide Next, FinishSucceeds, Unreleased, NothingVerified;
    if steps == [] {
      assert steps[..0] == [] && Run(s, []) == s;
    } else {
      hide Invariant, Run, NoneRunning, NeverRunning;
      var before, last := steps[..|steps| - 1], steps[|steps| - 1];
      assert steps == before + [last];
      UnreleasedPrefix(s, before, last);
      NothingVerifiedSnoc(s, before, last);
      StaysSwept(s, before);
      RunOne(s, before, last);
      NeverRunningSnoc(s, before, last);
      StillSwept(Run(s, before), last);
    }
  }

  lemma StillSwept(s: State, step: Step)
    requires Invariant(s) && s.swept && !(step == Finish && FinishSucceeds(s.rows))
    requires step.Verify? ==> step.job !in s.rows.jobs
    ensures Invariant(Next(s, step)) && Next(s, step).swept && NoneRunning(Next(s, step).rows)
  {
    hide Next, FinishSucceeds, NoneRunning;
    if step.Verify? {
      VerifyOfNothing(s, step.job);
    } else {
      StepKeeps(s, step);
      SweptUntilFinish(s, step);
    }
  }

  /** Where an existing job is verified, a job runs next. */
  lemma IdleRunVerifiesNothing(s: State, steps: seq<Step>)
    requires NeverRunning(s, steps)
    ensures NothingVerified(s, steps)
  {
    hide NoneRunning, Next, Run;
    forall i | 0 <= i < |steps| && steps[i].Verify? ensures steps[i].job !in Run(s, steps[..i]).rows.jobs {
      assert steps[..i + 1] == steps[..i] + [steps[i]];
      RunOne(s, steps[..i], steps[i]);
      assert NoneRunning(Run(s, steps[..i + 1]).rows) && NoneRunning(Run(s, steps[..i]).rows);
      IdleVerifiesNothing(Run(s, steps[..i]), steps[i]);
    }
  }

  lemma IdleVerifiesNothing(s: State, step: Step)
    requires NoneRunning(s.rows) && NoneRunning(Next(s, step).rows)
    ensures step.Verify? ==> step.job !in s.rows.jobs
  {
    hide NoneRunning, Next;
    if step.Verify? { VerifyRunsIff(s, step.job); }
  }

  lemma NoneRunningNow(s: State, steps: seq<Step>)
    requires NeverRunning(s, steps)
    ensures NoneRunning(Run(s, steps).rows)
  {
    assert steps[..|steps|] == steps;
  }

  lemma SweptSafeIff(s: State, steps: seq<Step>)
    requires Invariant(s) && s.swept && Unreleased(s, steps)
    ensures NeverRunning(s, steps) <==> NothingVerified(s, steps)
  {
    hide *;
    if NothingVerified(s, steps) { StaysSwept(s, steps); }
    if NeverRunning(s, steps) { IdleRunVerifiesNothing(s, steps); }
  }

  /** A sweep leaves jobs alone that are tracked already: it stops all jobs exactly if none of those runs. */
  lemma SweepStopsIff(s: State)
    requires s.draining > 0 && s.rows.active
    ensures NoneRunning(Next(s, Sweep).rows) <==> TrackedStopped(s.rows)
    ensures TrackedStopped(s.rows) ==> Invariant(Next(s, Sweep)) && Next(s, Sweep).swept
  {
    var t := Next(s, Sweep);
    forall j | j in s.rows.jobs
      ensures t.rows.jobs[j].status == Running <==> j in s.rows.tracked && s.rows.jobs[j].status == Running
    {
      assert t.rows.jobs[j] ==
        if j in SweptJobs(s.rows)
        then s.rows.jobs[j].(status := SweptStatus(s.rows.jobs[j].status)) else s.rows.jobs[j];
    }
  }

  lemma StartsRunning(s: State, steps: seq<Step>)
    requires NeverRunning(s, steps)
    ensures NoneRunning(s.rows)
  {
    assert steps[..0] == [] && Run(s, []) == s;
  }

  /**
   From a sweep in an active drain until a finish succeeds, whatever is interleaved: no job ever runs
   exactly if no tracked job was running at the sweep and no existing job is verified after it.
   */
  lemma DrainSafeIff(s: State, steps: seq<Step>)
    requires s.draining > 0 && s.rows.active && Unreleased(Next(s, Sweep), steps)
    ensures NeverRunning(Next(s, Sweep), steps) <==> TrackedStopped(s.rows) && NothingVerified(Next(s, Sweep), steps)
  {
    hide *;
    SweepStopsIff(s);
    if TrackedStopped(s.rows) {
      SweptSafeIff(Next(s, Sweep), steps);
    } else if NeverRunning(Next(s, Sweep), steps) {
      StartsRunning(Next(s, Sweep), steps);
      assert false;
    }
  }

  // ---------- when a sweep makes the drain safe ----------

  /** Whatever happens next, unless an existing job is verified, no job runs before a finish succeeds. */
  ghost predicate SafeUntilFinish(s: State) {
    forall steps :: NothingVerified(s, steps) && Unreleased(s, steps) ==> NeverRunning(s, steps)
  }

  lemma GatedVerifiesNothing(s: State, steps: seq<Step>)
    requires Gated(steps)
    ensures NothingVerified(s, steps)
  {
  }

  /** A number above a finite set of numbers. */
  lemma {:induction false} Above(numbers: set<nat>) returns (n: nat)
    ensures forall k :: k in numbers ==> k < n
    decreases numbers
  {
    n := 0;
    if numbers != {} {
      var k :| k in numbers;
      var m := Above(numbers - {k});
      n := if m > k then m else k + 1;
      forall x | x in numbers ensures x < n {
        if x != k { assert x in numbers - {k}; }
      }
    }
  }

  /** While the control row is inactive, a new job of a website without crawls is claimed. */
  lemma ClaimNewJob(s: State, j: JobId, w: Website)
    requires !s.rows.active && j !in s.rows.jobs && j !in s.gone
    requires forall k :: k in s.rows.jobs ==> s.rows.jobs[k].website != w
    ensures !NoneRunning(Next(Next(Next(s, Create(j, w)), Admit(j)), Gate(j)).rows)
  {
    var created := AfterCreate(s, j, w);
    var two := AfterAdmit(created, j);
    assert two.rows == created.rows && created.rows.jobs[j] == Job(w, Pending, 0) && j in two.admitted;
    assert forall k :: k in two.rows.jobs && k != j ==> two.rows.jobs[k].website != w;
    hide AfterCreate, AfterAdmit;
    NewJobClaimed(two, j);
  }

  lemma NewJobClaimed(s: State, j: JobId)
    requires !s.rows.active && j in s.rows.jobs && j in s.admitted
    requires forall k :: k in s.rows.jobs && k != j ==> s.rows.jobs[k].website != s.rows.jobs[j].website
    ensures !NoneRunning(AfterGate(s, j).rows)
  {
    assert !OtherRunning(s.rows, j);
    assert AfterGate(s, j).rows.jobs[j].status == Running;
  }

  lemma NewJobAndWebsite(rows: Rows, gone: set<JobId>) returns (j: JobId, w: Website)
    ensures j !in rows.jobs && j !in gone && forall k :: k in rows.jobs ==> rows.jobs[k].website != w
  {
    var websites := set k | k in rows.jobs :: rows.jobs[k].website;
    j := Above(rows.jobs.Keys + gone);
    w := Above(websites);
    forall k | k in rows.jobs ensures rows.jobs[k].website != w { assert rows.jobs[k].website in websites; }
  }

  lemma InactiveCanRun(s: State) returns (steps: seq<Step>)
    requires !s.rows.active
    ensures Gated(steps) && Unreleased(s, steps) && !NoneRunning(Run(s, steps).rows)
  {
    hide *;
    var j, w := NewJobAndWebsite(s.rows, s.gone);
    ClaimNewJob(s, j, w);
    steps := [Create(j, w), Admit(j), Gate(j)];
    RunThree(s, Create(j, w), Admit(j), Gate(j));
    NothingFinished(s, steps);
    NothingVerifiedIn(steps);
  }

  lemma NothingVerifiedIn(steps: seq<Step>)
    requires forall i :: 0 <= i < |steps| ==> !steps[i].Verify?
    ensures Gated(steps)
  {
  }

  lemma NothingFinished(s: State, steps: seq<Step>)
    requires forall i :: 0 <= i < |steps| ==> steps[i] != Finish
    ensures Unreleased(s, steps)
  {
  }

  lemma RunThree(s: State, a: Step, b: Step, c: Step)
    ensures Run(s, [a, b]) == Next(Next(s, a), b)
    ensures Run(s, [a, b, c]) == Next(Next(Next(s, a), b), c)
  {
    hide Next;
    assert [a][..0] == [] && [a, b][..1] == [a] && [a, b, c][..2] == [a, b];
    assert Run(s, []) == s && Run(s, [a]) == Next(s, a);
  }

  /** A sweep makes the drain safe exactly if it finds the control row active and no tracked job running. */
  lemma SweepSafeIff(s: State)
    requires s.draining > 0
    ensures SafeUntilFinish(Next(s, Sweep)) <==> s.rows.active && TrackedStopped(s.rows)
  {
    var t := Next(s, Sweep);
    if !s.rows.active {
      assert !t.rows.active;
      var steps := InactiveCanRun(t);
      hide *;
      GatedVerifiesNothing(t, steps);
      if SafeUntilFinish(t) { SafeAtEnd(t, steps); }
    } else {
      hide Next, Unreleased, NothingVerified, NeverRunning, TrackedStopped;
      forall steps | NothingVerified(t, steps) && Unreleased(t, steps)
        ensures NeverRunning(t, steps) <==> TrackedStopped(s.rows)
      {
        DrainSafeIff(s, steps);
      }
      NothingTaken(t);
    }
  }

  lemma NothingTaken(s: State)
    ensures NothingVerified(s, []) && Unreleased(s, [])
  {
  }

  lemma SafeAtEnd(s: State, steps: seq<Step>)
    requires SafeUntilFinish(s) && NothingVerified(s, steps) && Unreleased(s, steps)
    ensures NoneRunning(Run(s, steps).rows)
  {
    hide NothingVerified, Unreleased, NeverRunning;
    NoneRunningNow(s, steps);
  }

  /** Such a late sweep happens: another operator's finish may fall between the two transactions. */
  lemma LateSweepReachable()
    ensures var s := Run(START, [Activate, Finish]);
            s.draining > 0 && !s.rows.active && !SafeUntilFinish(Next(s, Sweep))
  {
    RunThree(START, Activate, Finish, Finish);
    var s := Run(START, [Activate, Finish]);
    assert s.draining > 0 && !s.rows.active;
    hide Run, Next;
    SweepSafeIff(s);
  }

  /** A job that can be verified is there in a reachable drain. */
  lemma VerificationRunsDuringDrain()
    ensures
      var s := Run(START, [Create(0, 0), Activate, Sweep]);
      Invariant(s) && s.swept && s.rows.active && 0 in s.rows.jobs && !NoneRunning(Next(s, Verify(0)).rows)
  {
    RunThree(START, Create(0, 0), Activate, Sweep);
    RunKeeps(START, [Create(0, 0), Activate, Sweep]);
    var s := Run(START, [Create(0, 0), Activate, Sweep]);
    assert 0 in s.rows.jobs && s.swept;
    hide Run, Next;
    VerifyRunsIff(s, 0);
  }

  lemma SweptExample()
    ensures Run(START, [Create(0, 0), Activate, Sweep]).rows == Rows(map[0 := Job(0, Paused, 0)], true, {0})
  {
    hide Run;
    RunThree(START, Create(0, 0), Activate, Sweep);
    var created := Next(START, Create(0, 0));
    var begun := Next(created, Activate);
    assert begun.rows == Rows(map[0 := Job(0, Pending, 0)], true, {}) && begun.draining == 1;
    SweepExample(begun);
  }

  lemma SweepExample(s: State)
    requires s.rows == Rows(map[0 := Job(0, Pending, 0)], true, {}) && s.draining == 1
    ensures Next(s, Sweep).rows == Rows(map[0 := Job(0, Paused, 0)], true, {0})
  {
    assert SweptJobs(s.rows) == {0};
  }

  /** The second sweep of a drain passes over a verification that started between the two. */
  lemma SecondSweepSkips()
    ensures
      var s := Next(Next(Run(START, [Create(0, 0), Activate, Sweep]), Verify(0)), Activate);
      s.draining > 0 && s.rows.active && !TrackedStopped(s.rows) && !SafeUntilFinish(Next(s, Sweep))
  {
    hide Run;
    SweptExample();
    var swept := Run(START, [Create(0, 0), Activate, Sweep]);
    var s := Next(Next(swept, Verify(0)), Activate);
    assert s.rows == Rows(map[0 := Job(0, Running, 1)], true, {0}) && s.draining > 0;
    hide Next;
    SweepSafeIff(s);
  }

  // ---------- one crawl for each website ----------

  ghost predicate AlwaysOnePerWebsite(s: State, steps: seq<Step>) {
    forall n | 0 <= n <= |steps| :: OnePerWebsite(Run(s, steps[..n]).rows)
  }

  /** No verification starts while another crawl of its website runs. */
  ghost predicate NoRivalVerified(s: State, steps: seq<Step>) {
    forall i :: 0 <= i < |steps| && steps[i].Verify? ==> !OtherRunning(Run(s, steps[..i]).rows, steps[i].job)
  }

  lemma ClaimOnePerIff(rows: Rows, j: JobId)
    requires OnePerWebsite(rows) && j in rows.jobs
    ensures OnePerWebsite(Claim(rows, j)) <==> !OtherRunning(rows, j)
  {
    if OtherRunning(rows, j) {
      var k :| k in rows.jobs && k != j && rows.jobs[k].status == Running &&
        rows.jobs[k].website == rows.jobs[j].website;
      assert Claim(rows, j).jobs[j].status == Claim(rows, j).jobs[k].status == Running;
    }
  }

  lemma QuietOnePer(s: State, t: State)
    requires OnePerWebsite(s.rows) && NoNewRunning(s.rows, t.rows)
    ensures OnePerWebsite(t.rows)
  {
  }

  lemma DrainStepOnePer(s: State, step: Step)
    requires OnePerWebsite(s.rows) && (step.Activate? || step.Sweep? || step.Finish?)
    ensures OnePerWebsite(Next(s, step).rows)
  {
    assert NoNewRunning(s.rows, SweepRows(s.rows)) && NoNewRunning(s.rows, FinishRows(s.rows));
    hide SweepRows, FinishRows, SweptJobs;
    QuietOnePer(s, Next(s, step));
  }

  lemma GateOnePer(s: State, j: JobId)
    requires OnePerWebsite(s.rows)
    ensures OnePerWebsite(AfterGate(s, j).rows)
  {
    if j in s.admitted && j in s.rows.jobs {
      if s.rows.active {
        TrackPausedQuiet(s, AfterGate(s, j), j);
        QuietOnePer(s, AfterGate(s, j));
      } else if !OtherRunning(s.rows, j) {
        ClaimOnePerIff(s.rows, j);
      }
    }
  }

  /** Of all steps only a verification beside another crawl of its website breaks it. */
  lemma OnePerWebsiteStepIff(s: State, step: Step)
    requires OnePerWebsite(s.rows)
    ensures OnePerWebsite(Next(s, step).rows) <==> !(step.Verify? && OtherRunning(s.rows, step.job))
  {
    hide OnePerWebsite, OtherRunning, AfterGate;
    if step.Verify? {
      if step.job in s.rows.jobs { ClaimOnePerIff(s.rows, step.job); }
      NoRivalOfNothing(s.rows, step.job);
    } else if step.Gate? {
      GateOnePer(s, step.job);
    } else {
      hide Next;
      if step.Activate? || step.Sweep? || step.Finish? {
        DrainStepOnePer(s, step);
      } else {
        OrdinaryQuiet(s, step);
        QuietOnePer(s, Next(s, step));
      }
    }
  }

  lemma NoRivalOfNothing(rows: Rows, j: JobId)
    ensures j !in rows.jobs ==> !OtherRunning(rows, j)
  {
  }

  lemma OrdinaryQuiet(s: State, step: Step)
    requires Ordinary(step)
    ensures Quiet(s, Next(s, step))
  {
    hide Next, Quiet;
    if step.Offer? || step.PauseIfActive? || step.Check? || step.Conclude? || step.ConcludeVerification? {
      OwnerQuiet(s, step);
    } else {
      OutsideQuiet(s, step);
    }
  }

  lemma AlwaysOnePerSnoc(s: State, steps: seq<Step>, step: Step)
    ensures AlwaysOnePerWebsite(s, steps + [step]) <==>
      AlwaysOnePerWebsite(s, steps) && OnePerWebsite(Next(Run(s, steps), step).rows)
  {
    hide OnePerWebsite, Next, Run;
    var more := steps + [step];
    assert more[..|more|] == more;
    RunOne(s, steps, step);
    assert forall n | 0 <= n <= |steps| :: more[..n] == steps[..n];
    if AlwaysOnePerWebsite(s, more) {
      assert forall n | 0 <= n <= |steps| :: OnePerWebsite(Run(s, more[..n]).rows);
    }
    if AlwaysOnePerWebsite(s, steps) && OnePerWebsite(Next(Run(s, steps), step).rows) {
      forall n | 0 <= n <= |more| ensures OnePerWebsite(Run(s, more[..n]).rows) {
        if n <= |steps| { assert OnePerWebsite(Run(s, steps[..n]).rows); }
      }
    }
  }

  lemma NoRivalSnoc(s: State, steps: seq<Step>, step: Step)
    ensures NoRivalVerified(s, steps + [step]) <==>
      NoRivalVerified(s, steps) && (step.Verify? ==> !OtherRunning(Run(s, steps).rows, step.job))
  {
    hide Run, OtherRunning;
    var more := steps + [step];
    assert forall i | 0 <= i < |steps| :: more[i] == steps[i] && more[..i] == steps[..i];
    assert more[..|steps|] == steps && more[|steps|] == step;
  }

  lemma OnePerNow(s: State, steps: seq<Step>)
    requires AlwaysOnePerWebsite(s, steps)
    ensures OnePerWebsite(Run(s, steps).rows)
  {
    assert steps[..|steps|] == steps;
  }

  /** Over any run, no two crawls of a website run at once exactly if no verification starts beside one. */
  lemma {:induction false} OnePerWebsiteIff(s: State, steps: seq<Step>)
    requires OnePerWebsite(s.rows)
    ensures AlwaysOnePerWebsite(s, steps) <==> NoRivalVerified(s, steps)
  {
    hide Next, OnePerWebsite, OtherRunning;
    if steps == [] {
      assert steps[..0] == [] && Run(s, []) == s;
    } else {
      hide *;
      var before, last := steps[..|steps| - 1], steps[|steps| - 1];
      assert steps == before + [last];
      AlwaysOnePerSnoc(s, before, last);
      NoRivalSnoc(s, before, last);
      OnePerWebsiteIff(s, before);
      if AlwaysOnePerWebsite(s, before) {
        OnePerNow(s, before);
        OnePerWebsiteStepIff(Run(s, before), last);
      }
    }
  }

  /** Two jobs of one website do run at once: a verification joins a crawl. */
  lemma VerificationJoinsCrawl()
    ensures
      var s := Next(Next(Run(START, [Create(0, 0), Admit(0), Gate(0)]), Create(1, 0)), Verify(1));
      && 0 in s.rows.jobs && 1 in s.rows.jobs && s.rows.jobs[0].website == s.rows.jobs[1].website
      && s.rows.jobs[0].status == s.rows.jobs[1].status == Running && !OnePerWebsite(s.rows)
  {
    hide Run;
    RunningExample();
    var running := Run(START, [Create(0, 0), Admit(0), Gate(0)]);
    var joined := Next(Next(running, Create(1, 0)), Verify(1));
    assert joined.rows.jobs == map[0 := Job(0, Running, 1), 1 := Job(0, Running, 1)];
    hide Next;
  }

  lemma RunningExample()
    ensures Run(START, [Create(0, 0), Admit(0), Gate(0)]).rows == Rows(map[0 := Job(0, Running, 1)], false, {})
    ensures Run(START, [Create(0, 0), Admit(0), Gate(0)]).gone == {}
  {
    RunThree(START, Create(0, 0), Admit(0), Gate(0));
    var admitted := Next(Next(START, Create(0, 0)), Admit(0));
    assert admitted.rows == Rows(map[0 := Job(0, Pending, 0)], false, {}) && admitted.admitted == multiset{0};
    assert !OtherRunning(admitted.rows, 0);
    hide Run;
  }

  // ---------- conservation of the paused jobs ----------

  /** Tracked and held grow by the same jobs, and not at all outside a drain. */
  ghost predicate BooksKept(s: State, t: State) {
    && t.rows.active == s.rows.active
    && s.rows.tracked <= t.rows.tracked
    && t.held <= s.held + t.rows.tracked
    && s.held <= t.held
    && (!s.rows.active ==> t.rows.tracked == s.rows.tracked && t.held == s.held)
  }

  /** t differs from s by one write to job k, if at all; only a drain step holds it. */
  ghost predicate JobWrite(s: State, t: State, k: JobId) {
    || (t.held == s.held && t.rows == s.rows)
    || (t.held == s.held && exists status :: t.rows == SetStatus(s.rows, k, status))
    || (t.held == s.held && k in s.rows.jobs && t.rows == Claim(s.rows, k))
    || (t.held == s.held + {k} && s.rows.active && t.rows == TrackPaused(s.rows, k))
  }

  predicate GateStep(step: Step) { step.Gate? || step.PauseIfActive? }

  predicate OwnStep(step: Step) {
    step.Offer? || step.Admit? || step.Check? || step.Conclude? || step.ConcludeVerification?
  }

  predicate UserStep(step: Step) {
    step.Requeue? || step.UserPause? || step.UserCancel? || step.UserResume? || step.Verify?
  }

  predicate JobStep(step: Step) { GateStep(step) || OwnStep(step) || UserStep(step) }

  lemma StatusWrite(s: State, t: State, k: JobId, status: Status)
    requires t.held == s.held && (t.rows == s.rows || t.rows == SetStatus(s.rows, k, status))
    ensures JobWrite(s, t, k)
  {
  }

  lemma GateWrites(s: State, step: Step)
    requires GateStep(step)
    ensures JobWrite(s, Next(s, step), step.job)
  {
    hide SetStatus, TrackPaused, Claim, OtherRunning;
  }

  lemma CheckWrites(s: State, j: JobId)
    ensures JobWrite(s, AfterCheck(s, j), j)
  {
    hide JobWrite, SetStatus;
    var status := if j in s.rows.jobs && s.rows.jobs[j].status == PauseRequested then Paused else Cancelled;
    StatusWrite(s, AfterCheck(s, j), j, status);
  }

  lemma ConcludeWrites(s: State, j: JobId, outcome: Status)
    ensures JobWrite(s, AfterConclude(s, j, outcome), j)
    ensures JobWrite(s, AfterConcludeVerification(s, j, outcome), j)
  {
    hide JobWrite, SetStatus;
    StatusWrite(s, AfterConclude(s, j, outcome), j, outcome);
    StatusWrite(s, AfterConcludeVerification(s, j, outcome), j, outcome);
  }

  lemma OwnWrites(s: State, step: Step)
    requires OwnStep(step)
    ensures JobWrite(s, Next(s, step), step.job)
  {
    hide JobWrite, SetStatus, AfterCheck, AfterConclude, AfterConcludeVerification;
    match step
    case Offer(j, queued) => StatusWrite(s, AfterOffer(s, j, queued), j, WaitingForCapacity);
    case Admit(j) => StatusWrite(s, AfterAdmit(s, j), j, Paused);
    case Check(j) => CheckWrites(s, j);
    case Conclude(j, outcome) => ConcludeWrites(s, j, outcome);
    case ConcludeVerification(j, outcome) => ConcludeWrites(s, j, outcome);
  }

  lemma UserWrites(s: State, step: Step)
    requires UserStep(step)
    ensures JobWrite(s, Next(s, step), step.job)
  {
    hide SetStatus, Claim;
    if step.Verify? { return; }
    hide JobWrite;
    match step
    case Requeue(j, queued) => StatusWrite(s, AfterRequeue(s, j, queued), j, Pending);
    case UserPause(j) => StatusWrite(s, Next(s, step), j, PauseRequested);
    case UserCancel(j) =>
      var status := if HasStatus(s, j, {WaitingForCapacity, Pending, Paused}) then Cancelled else CancelRequested;
      StatusWrite(s, AfterUserCancel(s, j), j, status);
    case UserResume(j) => StatusWrite(s, AfterUserResume(s, j), j, Pending);
  }

  lemma JobWrites(s: State, step: Step)
    requires JobStep(step)
    ensures JobWrite(s, Next(s, step), step.job)
  {
    hide Next, JobWrite;
    if GateStep(step) { GateWrites(s, step); }
    if OwnStep(step) { OwnWrites(s, step); }
    if UserStep(step) { UserWrites(s, step); }
  }

  lemma WriteBooks(s: State, t: State, k: JobId)
    requires JobWrite(s, t, k)
    ensures BooksKept(s, t)
  {
  }

  lemma RowsBooks(s: State, j: JobId, w: Website, chosen: set<JobId>, protected: set<JobId>)
    ensures BooksKept(s, AfterCreate(s, j, w))
    ensures BooksKept(s, s.(rows := DispatchRows(s.rows, chosen)))
    ensures BooksKept(s, s.(rows := RecoverRows(s.rows, protected)))
    ensures BooksKept(s, AfterDeleteWebsite(s, w))
  {
  }

  lemma OrdinaryBooks(s: State, step: Step)
    requires !(step.Activate? || step.Sweep? || step.Finish?)
    ensures BooksKept(s, Next(s, step))
  {
    hide BooksKept, JobWrite, AfterCreate, AfterDeleteWebsite, DispatchRows, RecoverRows;
    if JobStep(step) {
      hide Next;
      JobWrites(s, step);
      WriteBooks(s, Next(s, step), step.job);
    } else {
      match step
      case Create(j, w) => RowsBooks(s, j, w, {}, {});
      case DeleteWebsite(w) => RowsBooks(s, 0, w, {}, {});
      case Dispatch(chosen) => RowsBooks(s, 0, 0, chosen, {});
      case Recover(protected) => RowsBooks(s, 0, 0, {}, protected);
    }
  }

  lemma HeldAfterDrainStep(s: State, step: Step)
    requires step.Activate? || step.Sweep? || step.Finish?
    requires s.held <= s.rows.tracked
    ensures Next(s, step).held <= Next(s, step).rows.tracked <==> !(step == Activate && !s.rows.active && s.held != {})
  {
    hide SweptJobs, SafeToFinish, Releasable;
  }

  /** The tracked ids lose a held job exactly when a new drain starts over jobs a late sweep left behind. */
  lemma HeldStaysTrackedIff(s: State, step: Step)
    requires s.held <= s.rows.tracked
    ensures Next(s, step).held <= Next(s, step).rows.tracked <==>
            !(step == Activate && !s.rows.active && s.held != {})
  {
    hide Next;
    if step.Activate? || step.Sweep? || step.Finish? {
      HeldAfterDrainStep(s, step);
    } else {
      OrdinaryBooks(s, step);
    }
  }

  ghost predicate HeldTracked(s: State) {
    s.held <= s.rows.tracked
  }

  ghost predicate AlwaysHeldTracked(s: State, steps: seq<Step>) {
    forall n | 0 <= n <= |steps| :: HeldTracked(Run(s, steps[..n]))
  }

  /** A new drain starts although a late sweep left jobs behind. */
  ghost predicate Forgets(s: State, step: Step) {
    step == Activate && !s.rows.active && s.held != {}
  }

  ghost predicate NeverForgets(s: State, steps: seq<Step>) {
    forall i :: 0 <= i < |steps| ==> !Forgets(Run(s, steps[..i]), steps[i])
  }

  /** Over any run, paused jobs stay tracked until released exactly if no drain starts over leftovers. */
  lemma AlwaysHeldTrackedIff(s: State, steps: seq<Step>)
    requires HeldTracked(s)
    ensures AlwaysHeldTracked(s, steps) <==> NeverForgets(s, steps)
  {
    hide Run, Next;
    if AlwaysHeldTracked(s, steps) {
      forall i | 0 <= i < |steps| ensures !Forgets(Run(s, steps[..i]), steps[i]) {
        RunNext(s, steps, i);
        HeldStaysTrackedIff(Run(s, steps[..i]), steps[i]);
      }
    }
    if NeverForgets(s, steps) {
      forall n | 0 <= n <= |steps| ensures HeldTracked(Run(s, steps[..n])) {
        NotForgotten(s, steps, n);
      }
    }
  }

  lemma RunNext(s: State, steps: seq<Step>, i: nat)
    requires i < |steps|
    ensures Run(s, steps[..i + 1]) == Next(Run(s, steps[..i]), steps[i])
  {
    assert steps[..i + 1] == steps[..i] + [steps[i]];
    RunOne(s, steps[..i], steps[i]);
  }

  lemma {:induction false} NotForgotten(s: State, steps: seq<Step>, n: nat)
    requires HeldTracked(s) && NeverForgets(s, steps) && n <= |steps|
    ensures HeldTracked(Run(s, steps[..n]))
  {
    hide Next;
    if n == 0 {
      assert steps[..0] == [] && Run(s, []) == s;
    } else {
      hide Run;
      NotForgotten(s, steps, n - 1);
      RunNext(s, steps, n - 1);
      HeldStaysTrackedIff(Run(s, steps[..n - 1]), steps[n - 1]);
    }
  }

  /** Every sweep commits while the drain is active. */
  ghost predicate PromptSweeps(s: State, steps: seq<Step>) {
    forall i :: 0 <= i < |steps| && steps[i] == Sweep ==>
      Run(s, steps[..i]).rows.active || Run(s, steps[..i]).draining == 0
  }

  ghost predicate Conserved(s: State) {
    s.held <= s.rows.tracked && (!s.rows.active ==> s.rows.tracked == {})
  }

  lemma StepConserves(s: State, step: Step)
    requires Conserved(s) && (step == Sweep ==> s.rows.active || s.draining == 0)
    ensures Conserved(Next(s, step))
  {
    HeldStaysTrackedIff(s, step);
    if step.Activate? || step.Sweep? || step.Finish? {
      hide SweptJobs, SafeToFinish, Releasable;
    } else {
      hide Next;
      OrdinaryBooks(s, step);
    }
  }

  /** Conservation: every job a drain step paused stays tracked until a finish releases it. */
  lemma {:induction false} DrainConserves(s: State, steps: seq<Step>)
    requires Conserved(s) && PromptSweeps(s, steps)
    ensures Conserved(Run(s, steps))
  {
    if steps != [] {
      var before := steps[..|steps| - 1];
      assert forall i :: 0 <= i < |before| ==> steps[..i] == before[..i];
      DrainConserves(s, before);
      StepConserves(Run(s, before), steps[|steps| - 1]);
    }
  }

  /** The state after a drain was begun, finished by another operator, and a job was created. */
  const BEFORE_LATE_SWEEP: State :=
    State(Rows(map[0 := Job(0, Pending, 0)], false, {}), multiset{0}, multiset{}, multiset{}, multiset{}, 1, false,
          {}, {})

  lemma LateSweepState()
    ensures Run(START, [Activate, Finish, Create(0, 0)]) == BEFORE_LATE_SWEEP
  {
    RunThree(START, Activate, Finish, Create(0, 0));
    var begun := Next(START, Activate);
    assert Next(begun, Finish).rows == Rows(map[], false, {});
  }

  /** A job paused by a late sweep is forgotten by the next drain: paused and untracked, no finish resumes it. */
  lemma LateSweepLosesJob()
    ensures var s := Next(Next(Run(START, [Activate, Finish, Create(0, 0)]), Sweep), Activate);
            0 in s.held && 0 !in s.rows.tracked && 0 in s.rows.jobs && s.rows.jobs[0].status == Paused
  {
    LateSweepState();
    assert SweptJobs(BEFORE_LATE_SWEEP.rows) == {0};
  }

  lemma FinishResumesExactly(s: State, j: JobId)
    requires Conserved(s) && FinishSucceeds(s.rows) && j in s.rows.jobs
    ensures Resumes(s, Next(s, Finish), j)
  {
  }

  /** j is pending if it was tracked and still paused, and else unchanged; nothing is tracked or held. */
  ghost predicate Resumes(s: State, t: State, j: JobId)
    requires j in s.rows.jobs
  {
    var before := s.rows.jobs[j];
    && t.rows.jobs.Keys == s.rows.jobs.Keys && !t.rows.active && t.rows.tracked == t.held == {}
    && (j in s.rows.tracked && before.status == Paused ==> t.rows.jobs[j] == before.(status := Pending))
    && (j !in s.rows.tracked || before.status != Paused ==> t.rows.jobs[j] == before)
    && (j in s.held ==> t.rows.jobs[j].status != Paused)
  }

  /**
   Over any run whose sweeps are prompt, a finish that succeeds resumes exactly the tracked jobs that
   are still paused, and leaves none paused that a drain step paused.
   */
  lemma DrainReleases(s: State, steps: seq<Step>, j: JobId)
    requires Conserved(s) && PromptSweeps(s, steps)
    requires FinishSucceeds(Run(s, steps).rows) && j in Run(s, steps).rows.jobs
    ensures Resumes(Run(s, steps), Next(Run(s, steps), Finish), j)
  {
    hide *;
    DrainConserves(s, steps);
    FinishResumesExactly(Run(s, steps), j);
  }
}
