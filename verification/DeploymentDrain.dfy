/**
 The crawl-job lifecycle and the deployment drain as a concurrent protocol. Every block the code
 commits at once is one atomic step; a run is any interleaving of steps of any number of workers,
 schedulers, operators and users.
 */
module DeploymentDrain {
  type JobId = nat
  type Website = nat

  datatype Status =
    | WaitingForCapacity | Pending | Running | PauseRequested | Paused
    | CancelRequested | Cancelled | Succeeded | PartiallySucceeded | Failed

  datatype Job = Job(website: Website, status: Status, attempts: nat)

  /** The committed rows: all crawl jobs, and the control row's flag and tracked job ids. */
  datatype Rows = Rows(jobs: map<JobId, Job>, active: bool, tracked: set<JobId>)

  /**
   Rows, the processes between two of their steps, and history.
   Processes, one occurrence of the job for each: creators offering a job to a queue; workers past
   their first status check; workers executing; workers verifying a recommendation; operators
   between the two transactions of starting a drain.
   History: a sweep has committed in the present drain; jobs a drain step paused that no finish released;
   ids of deleted jobs, which are never used again.
   */
  datatype State = State(
    rows: Rows,
    offering: multiset<JobId>,
    admitted: multiset<JobId>,
    executing: multiset<JobId>,
    verifying: multiset<JobId>,
    draining: nat,
    swept: bool,
    held: set<JobId>,
    gone: set<JobId>)

  datatype Step =
    | Create(job: JobId, website: Website)     // a pending job is committed
    | Offer(job: JobId, queued: bool)          // its queue took or refused it
    | Dispatch(jobs: set<JobId>)               // capacity returned
    | Admit(job: JobId)                        // a worker's first status check
    | Gate(job: JobId)                         // control lock, drain check, claim
    | PauseIfActive(job: JobId)                // the drain check a creator makes
    | Check(job: JobId)                        // a worker's control check
    | Conclude(job: JobId, outcome: Status)    // a worker's final write
    | Recover(protected: set<JobId>)           // a restarted worker's recovery
    | Requeue(job: JobId, queued: bool)        // from the dead letters
    | Activate                                 // start of a drain, first transaction
    | Sweep                                    // start of a drain, second transaction
    | Finish
    | UserPause(job: JobId)
    | UserCancel(job: JobId)
    | UserResume(job: JobId)                   // a resume, or a retry of an onboarding crawl
    | DeleteWebsite(website: Website)          // its jobs go with it
    | Verify(job: JobId)                       // a recommendation verification starts
    | ConcludeVerification(job: JobId, outcome: Status)

  // ---------- the transactions on the rows ----------

  predicate IsUnsafe(status: Status) {
    status == Running || status == PauseRequested
  }

  predicate ToPause(status: Status) {
    status == WaitingForCapacity || status == Pending || status == Running
  }

  function SetStatus(rows: Rows, job: JobId, status: Status): Rows {
    if job in rows.jobs then rows.(jobs := rows.jobs[job := rows.jobs[job].(status := status)]) else rows
  }

  /** pause_job_if_deployment_active on an active control row. */
  function TrackPaused(rows: Rows, job: JobId): Rows {
    SetStatus(rows.(tracked := rows.tracked + {job}), job, Paused)
  }

  ghost predicate OtherRunning(rows: Rows, job: JobId) {
    && job in rows.jobs
    && exists k ::
      && k in rows.jobs && k != job
      && rows.jobs[k].status == Running && rows.jobs[k].website == rows.jobs[job].website
  }

  function Claim(rows: Rows, job: JobId): Rows
    requires job in rows.jobs
  {
    rows.(jobs := rows.jobs[job := rows.jobs[job].(status := Running, attempts := rows.jobs[job].attempts + 1)])
  }

  ghost function SweptJobs(rows: Rows): set<JobId> {
    set j | j in rows.jobs && ToPause(rows.jobs[j].status) && j !in rows.tracked
  }

  function SweptStatus(status: Status): Status {
    if status == Pending then Paused else PauseRequested
  }

  ghost function SweepRows(rows: Rows): Rows {
    var swept := SweptJobs(rows);
    Rows(map j | j in rows.jobs ::
           if j in swept then rows.jobs[j].(status := SweptStatus(rows.jobs[j].status)) else rows.jobs[j],
         rows.active, rows.tracked + swept)
  }

  ghost predicate SafeToFinish(rows: Rows) {
    forall j :: j in rows.jobs ==> !IsUnsafe(rows.jobs[j].status)
  }

  /** The tracked jobs that are still paused. */
  ghost function Releasable(rows: Rows): set<JobId> {
    set j | j in rows.tracked && j in rows.jobs && rows.jobs[j].status == Paused
  }

  ghost predicate FinishSucceeds(rows: Rows) {
    rows.active && SafeToFinish(rows)
  }

  ghost function FinishRows(rows: Rows): Rows {
    if !FinishSucceeds(rows) then rows else
      Rows(map j | j in rows.jobs :: if j in Releasable(rows) then rows.jobs[j].(status := Pending) else rows.jobs[j],
           false, {})
  }

  function RecoveredStatus(status: Status): Status {
    if IsUnsafe(status) then Paused else if status == CancelRequested then Cancelled else status
  }

  ghost function RecoverRows(rows: Rows, protected: set<JobId>): Rows {
    rows.(jobs := map j | j in rows.jobs ::
      if j in protected then rows.jobs[j] else rows.jobs[j].(status := RecoveredStatus(rows.jobs[j].status)))
  }

  ghost function DispatchRows(rows: Rows, chosen: set<JobId>): Rows {
    rows.(jobs := map j | j in rows.jobs ::
      if j in chosen && rows.jobs[j].status == WaitingForCapacity
      then rows.jobs[j].(status := Pending) else rows.jobs[j])
  }

  // ---------- steps and runs ----------

  ghost predicate HasStatus(s: State, job: JobId, allowed: set<Status>) {
    job in s.rows.jobs && s.rows.jobs[job].status in allowed
  }

  // What each step does; a step whose guard fails does nothing.

  ghost function AfterCreate(s: State, j: JobId, w: Website): State {
    if j in s.rows.jobs || j in s.gone then s
    else s.(rows := s.rows.(jobs := s.rows.jobs[j := Job(w, Pending, 0)]), offering := s.offering + multiset{j})
  }

  ghost function AfterOffer(s: State, j: JobId, queued: bool): State {
    if j !in s.offering then s else
      var t := s.(offering := s.offering - multiset{j});
      if queued then t else t.(rows := SetStatus(s.rows, j, WaitingForCapacity))
  }

  ghost function AfterAdmit(s: State, j: JobId): State {
    if j !in s.rows.jobs || s.rows.jobs[j].status in {Cancelled, Paused, PauseRequested} then s
    else s.(admitted := s.admitted + multiset{j})
  }

  ghost function AfterGate(s: State, j: JobId): State {
    if j !in s.admitted || j !in s.rows.jobs then s else
      var t := s.(admitted := s.admitted - multiset{j});
      if s.rows.active then t.(rows := TrackPaused(s.rows, j), held := s.held + {j})
      else if OtherRunning(s.rows, j) then t
      else t.(rows := Claim(s.rows, j), executing := s.executing + multiset{j})
  }

  ghost function AfterPauseIfActive(s: State, j: JobId): State {
    if j !in s.offering || j !in s.rows.jobs || !s.rows.active then s
    else s.(rows := TrackPaused(s.rows, j), offering := s.offering - multiset{j}, held := s.held + {j})
  }

  ghost function AfterCheck(s: State, j: JobId): State {
    if j !in s.executing || j !in s.rows.jobs then s
    else if s.rows.jobs[j].status == PauseRequested then
      s.(rows := SetStatus(s.rows, j, Paused), executing := s.executing - multiset{j})
    else if s.rows.jobs[j].status in {CancelRequested, Cancelled} then
      s.(rows := SetStatus(s.rows, j, Cancelled), executing := s.executing - multiset{j})
    else s
  }

  ghost function AfterConclude(s: State, j: JobId, outcome: Status): State {
    if j !in s.executing || outcome !in {Succeeded, PartiallySucceeded, Failed} then s
    else s.(rows := SetStatus(s.rows, j, outcome), executing := s.executing - multiset{j})
  }

  ghost function AfterRequeue(s: State, j: JobId, queued: bool): State {
    if j !in s.rows.jobs || s.rows.jobs[j].status in {Running, PauseRequested, CancelRequested} || !queued then s
    else s.(rows := SetStatus(s.rows, j, Pending))
  }

  ghost function AfterActivate(s: State): State {
    if s.rows.active then s.(draining := s.draining + 1)
    else s.(draining := s.draining + 1, rows := s.rows.(active := true, tracked := {}), swept := false)
  }

  ghost function AfterSweep(s: State): State {
    if s.draining == 0 then s
    else s.(rows := SweepRows(s.rows), draining := s.draining - 1, swept := s.rows.active,
            held := s.held + SweptJobs(s.rows))
  }

  ghost function AfterFinish(s: State): State {
    if !FinishSucceeds(s.rows) then s
    else s.(rows := FinishRows(s.rows), swept := false, held := s.held - s.rows.tracked)
  }

  ghost function AfterUserCancel(s: State, j: JobId): State {
    if HasStatus(s, j, {WaitingForCapacity, Pending, Paused}) then s.(rows := SetStatus(s.rows, j, Cancelled))
    else if HasStatus(s, j, {Running, PauseRequested}) then s.(rows := SetStatus(s.rows, j, CancelRequested))
    else s
  }

  ghost function AfterUserResume(s: State, j: JobId): State {
    if !HasStatus(s, j, {Paused, Failed, Cancelled}) then s
    else s.(rows := SetStatus(s.rows, j, Pending), offering := s.offering + multiset{j})
  }

  ghost function JobsOf(rows: Rows, w: Website): set<JobId> {
    set j | j in rows.jobs && rows.jobs[j].website == w
  }

  /** Deleting a website deletes its jobs; the control row keeps their ids. */
  ghost function AfterDeleteWebsite(s: State, w: Website): State {
    s.(rows := s.rows.(jobs := s.rows.jobs - JobsOf(s.rows, w)), gone := s.gone + JobsOf(s.rows, w))
  }

  /** A verification looks neither at the drain nor at other crawls. */
  ghost function AfterVerify(s: State, j: JobId): State {
    if j !in s.rows.jobs then s
    else s.(rows := Claim(s.rows, j), verifying := s.verifying + multiset{j})
  }

  ghost function AfterConcludeVerification(s: State, j: JobId, outcome: Status): State {
    if j !in s.verifying || outcome !in {Succeeded, PartiallySucceeded, Failed, Pending} then s
    else s.(rows := SetStatus(s.rows, j, outcome), verifying := s.verifying - multiset{j})
  }

  ghost function Next(s: State, step: Step): State {
    match step
    case Create(j, w) => AfterCreate(s, j, w)
    case Offer(j, queued) => AfterOffer(s, j, queued)
    case Dispatch(chosen) => s.(rows := DispatchRows(s.rows, chosen))
    case Admit(j) => AfterAdmit(s, j)
    case Gate(j) => AfterGate(s, j)
    case PauseIfActive(j) => AfterPauseIfActive(s, j)
    case Check(j) => AfterCheck(s, j)
    case Conclude(j, outcome) => AfterConclude(s, j, outcome)
    case Recover(protected) => s.(rows := RecoverRows(s.rows, protected))
    case Requeue(j, queued) => AfterRequeue(s, j, queued)
    case Activate => AfterActivate(s)
    case Sweep => AfterSweep(s)
    case Finish => AfterFinish(s)
    case UserPause(j) => if HasStatus(s, j, {Running}) then s.(rows := SetStatus(s.rows, j, PauseRequested)) else s
    case UserCancel(j) => AfterUserCancel(s, j)
    case UserResume(j) => AfterUserResume(s, j)
    case DeleteWebsite(w) => AfterDeleteWebsite(s, w)
    case Verify(j) => AfterVerify(s, j)
    case ConcludeVerification(j, outcome) => AfterConcludeVerification(s, j, outcome)
  }

  ghost function Run(s: State, steps: seq<Step>): State {
    if steps == [] then s else Next(Run(s, steps[..|steps| - 1]), steps[|steps| - 1])
  }

  const START: State := State(Rows(map[], false, {}), multiset{}, multiset{}, multiset{}, multiset{}, 0, false, {}, {})

  /** No recommendation verification starts: the steps the drain's gate covers. */
  ghost predicate Gated(steps: seq<Step>) {
    forall i :: 0 <= i < |steps| ==> !steps[i].Verify?
  }

  /** No finish succeeds while the steps are taken from s. */
  ghost predicate Unreleased(s: State, steps: seq<Step>) {
    forall i :: 0 <= i < |steps| && steps[i] == Finish ==> !FinishSucceeds(Run(s, steps[..i]).rows)
  }

  ghost predicate NoneRunning(rows: Rows) {
    forall j :: j in rows.jobs ==> rows.jobs[j].status != Running
  }

  // ---------- safety ----------

  ghost predicate OnePerWebsite(rows: Rows) {
    forall j, k ::
      j in rows.jobs && k in rows.jobs && j != k && rows.jobs[j].status == rows.jobs[k].status == Running ==>
        rows.jobs[j].website != rows.jobs[k].website
  }

  ghost predicate TrackedStopped(rows: Rows) {
    rows.active ==> forall j :: j in rows.tracked && j in rows.jobs ==> rows.jobs[j].status != Running
  }

  ghost predicate Invariant(s: State) {
    && OnePerWebsite(s.rows) && TrackedStopped(s.rows)
    && (s.swept ==> s.rows.active && NoneRunning(s.rows))
  }

  /** after differs from before only in statuses, and no job came to be running. */
  ghost predicate NoNewRunning(before: Rows, after: Rows) {
    forall j :: j in after.jobs && after.jobs[j].status == Running ==>
          j in before.jobs && before.jobs[j].status == Running && before.jobs[j].website == after.jobs[j].website
  }

  /** No job came to be running, and the drain stands as it stood. */
  ghost predicate Quiet(s: State, t: State) {
    && NoNewRunning(s.rows, t.rows)
    && (t.rows.active, t.swept) == (s.rows.active, s.swept)
    && (t.rows.active ==>
      forall j :: j in t.rows.tracked && j in t.rows.jobs ==> j in s.rows.tracked || t.rows.jobs[j].status != Running)
  }

  lemma QuietKeeps(s: State, t: State)
    requires Invariant(s) && Quiet(s, t)
    ensures Invariant(t)
  {
  }

  lemma StatusQuiet(s: State, t: State, job: JobId, status: Status)
    requires status != Running
    requires t.rows == s.rows || t.rows == SetStatus(s.rows, job, status)
    requires t.swept == s.swept
    ensures Quiet(s, t)
  {
  }

  lemma TrackPausedQuiet(s: State, t: State, job: JobId)
    requires job in s.rows.jobs && t.rows == TrackPaused(s.rows, job) && t.swept == s.swept
    ensures Quiet(s, t)
  {
  }

  lemma CreateQuiet(s: State, job: JobId, website: Website)
    ensures Quiet(s, AfterCreate(s, job, website))
  {
  }

  lemma DeleteQuiet(s: State, w: Website)
    ensures Quiet(s, AfterDeleteWebsite(s, w))
  {
  }

  lemma DispatchQuiet(s: State, chosen: set<JobId>, protected: set<JobId>)
    ensures Quiet(s, s.(rows := DispatchRows(s.rows, chosen)))
    ensures Quiet(s, s.(rows := RecoverRows(s.rows, protected)))
  {
  }

  lemma ClaimKeeps(s: State, job: JobId)
    requires Invariant(s) && job in s.rows.jobs && !s.rows.active && !OtherRunning(s.rows, job)
    ensures Invariant(s.(rows := Claim(s.rows, job)))
  {
  }

  lemma SweepKeeps(s: State)
    requires Invariant(s)
    ensures OnePerWebsite(SweepRows(s.rows)) && TrackedStopped(SweepRows(s.rows))
    ensures s.rows.active ==> NoneRunning(SweepRows(s.rows))
  {
    assert NoNewRunning(s.rows, SweepRows(s.rows));
  }

  lemma FinishKeeps(s: State)
    requires Invariant(s)
    ensures OnePerWebsite(FinishRows(s.rows)) && TrackedStopped(FinishRows(s.rows))
  {
    assert NoNewRunning(s.rows, FinishRows(s.rows));
  }

  lemma GateKeeps(s: State, job: JobId)
    requires Invariant(s)
    ensures Invariant(AfterGate(s, job))
  {
    if job in s.admitted && job in s.rows.jobs {
      if s.rows.active {
        TrackPausedQuiet(s, AfterGate(s, job), job);
        QuietKeeps(s, AfterGate(s, job));
      } else if !OtherRunning(s.rows, job) {
        ClaimKeeps(s, job);
      }
    }
  }

  predicate Ordinary(step: Step) {
    !(step.Gate? || step.Activate? || step.Sweep? || step.Finish? || step.Verify?)
  }

  /** A worker, creator or verification writing the status of its own job. */
  lemma OwnerQuiet(s: State, step: Step)
    requires step.Offer? || step.PauseIfActive? || step.Check? || step.Conclude? || step.ConcludeVerification?
    ensures Quiet(s, Next(s, step))
  {
    hide Quiet, SetStatus, TrackPaused, AfterCheck, AfterConclude, AfterConcludeVerification;
    match step
    case Offer(j, queued) => StatusQuiet(s, AfterOffer(s, j, queued), j, WaitingForCapacity);
    case PauseIfActive(j) =>
      if j in s.offering && j in s.rows.jobs && s.rows.active {
        TrackPausedQuiet(s, AfterPauseIfActive(s, j), j);
      } else {
        StatusQuiet(s, AfterPauseIfActive(s, j), j, Paused);
      }
    case Check(j) => CheckQuiet(s, j);
    case Conclude(j, outcome) => ConcludeQuiet(s, j, outcome);
    case ConcludeVerification(j, outcome) => ConcludeQuiet(s, j, outcome);
  }

  lemma CheckQuiet(s: State, j: JobId)
    ensures Quiet(s, AfterCheck(s, j))
  {
    hide Quiet, SetStatus;
    var status := if j in s.rows.jobs && s.rows.jobs[j].status == PauseRequested then Paused else Cancelled;
    StatusQuiet(s, AfterCheck(s, j), j, status);
  }

  lemma ConcludeQuiet(s: State, j: JobId, outcome: Status)
    ensures Quiet(s, AfterConclude(s, j, outcome))
    ensures Quiet(s, AfterConcludeVerification(s, j, outcome))
  {
    hide Quiet, SetStatus;
    var status := if outcome == Running then Failed else outcome;
    StatusQuiet(s, AfterConclude(s, j, outcome), j, status);
    StatusQuiet(s, AfterConcludeVerification(s, j, outcome), j, status);
  }

  /** Scheduler, recovery, dead-letter and user steps. */
  lemma OutsideQuiet(s: State, step: Step)
    requires Ordinary(step)
    requires !(step.Offer? || step.PauseIfActive? || step.Check? || step.Conclude? || step.ConcludeVerification?)
    ensures Quiet(s, Next(s, step))
  {
    hide Quiet, SetStatus, DispatchRows, RecoverRows, AfterCreate, AfterDeleteWebsite;
    match step
    case Create(j, w) => CreateQuiet(s, j, w);
    case DeleteWebsite(w) => DeleteQuiet(s, w);
    case Dispatch(chosen) => DispatchQuiet(s, chosen, {});
    case Admit(j) => StatusQuiet(s, AfterAdmit(s, j), j, Paused);
    case Recover(protected) => DispatchQuiet(s, {}, protected);
    case Requeue(j, queued) => StatusQuiet(s, AfterRequeue(s, j, queued), j, Pending);
    case UserPause(j) => StatusQuiet(s, Next(s, step), j, PauseRequested);
    case UserCancel(j) =>
      var status := if HasStatus(s, j, {WaitingForCapacity, Pending, Paused}) then Cancelled else CancelRequested;
      StatusQuiet(s, AfterUserCancel(s, j), j, status);
    case UserResume(j) => StatusQuiet(s, AfterUserResume(s, j), j, Pending);
  }

  lemma DrainStepKeeps(s: State, step: Step)
    requires Invariant(s)
    requires step.Activate? || step.Sweep? || step.Finish?
    ensures Invariant(Next(s, step))
  {
    SweepKeeps(s);
    FinishKeeps(s);
    hide SweepRows, FinishRows, SweptJobs, OnePerWebsite;
  }

  /** Every step but an ungated verification keeps the invariant. */
  lemma StepKeeps(s: State, step: Step)
    requires Invariant(s) && !step.Verify?
    ensures Invariant(Next(s, step))
  {
    hide Invariant, Quiet;
    if step.Gate? {
      hide AfterGate;
      GateKeeps(s, step.job);
    } else if step.Activate? || step.Sweep? || step.Finish? {
      hide Next;
      DrainStepKeeps(s, step);
    } else {
      hide Next;
      if step.Offer? || step.PauseIfActive? || step.Check? || step.Conclude? || step.ConcludeVerification? {
        OwnerQuiet(s, step);
      } else {
        OutsideQuiet(s, step);
      }
      QuietKeeps(s, Next(s, step));
    }
  }

  lemma {:induction false} RunKeeps(s: State, steps: seq<Step>)
    requires Invariant(s) && Gated(steps)
    ensures Invariant(Run(s, steps))
  {
    if steps != [] {
      RunKeeps(s, steps[..|steps| - 1]);
      StepKeeps(Run(s, steps[..|steps| - 1]), steps[|steps| - 1]);
    }
  }

  /** Only a finish that succeeds ends the sweep's effect. */
  lemma SweptUntilFinish(s: State, step: Step)
    requires Invariant(s) && s.swept && !(step == Finish && FinishSucceeds(s.rows))
    ensures Next(s, step).swept
  {
  }
}
