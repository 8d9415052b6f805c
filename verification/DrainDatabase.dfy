/**
 The transactions of the drain and of recovery and dispatch, as they loop over job rows; each is shown
 to have exactly the effect of its protocol step.
 */
module DrainDatabase {
  import opened Basics
  import opened Sorting
  import opened DeploymentDrain

  datatype DrainStatus = DrainStatus(active: bool, tracked: set<JobId>, waiting: set<JobId>) {
    predicate Safe() { active && waiting == {} }
  }

  /** A resumed job with the attempt number it is queued under. */
  datatype Resumed = Resumed(job: JobId, attempt: nat)

  datatype FinishResult = Refused(waiting: set<JobId>) | Finished(resumed: set<Resumed>)

  /** The columns that order waiting jobs; no step changes them. */
  datatype Columns = Columns(priority: JobId -> int, created: JobId -> int)

  function SoonerIn(columns: Columns): (JobId, JobId) -> bool {
    (j: JobId, k: JobId) =>
      columns.priority(j) < columns.priority(k) ||
        (columns.priority(j) == columns.priority(k) && columns.created(j) <= columns.created(k))
  }

  lemma SoonerOrders(columns: Columns)
    ensures TotalPreorder(SoonerIn(columns))
  {
  }

  /** The waiting jobs that no other dispatcher has locked. */
  ghost function Offerable(rows: Rows, locked: set<JobId>): set<JobId> {
    set j | j in rows.jobs && rows.jobs[j].status == WaitingForCapacity && j !in locked
  }

  /** The first jobs in order, up to the limit. */
  ghost predicate FirstOf(jobs: set<JobId>, columns: Columns, limit: nat, selected: seq<JobId>) {
    && Distinct(selected) && Elements(selected) <= jobs
    && |selected| == Min(limit, |jobs|)
    && SortedBy(selected, SoonerIn(columns))
    && forall j, k :: j in selected && k in jobs && k !in selected ==> SoonerIn(columns)(j, k)
  }

  lemma PrefixIsFirst(jobs: set<JobId>, columns: Columns, limit: nat, ordered: seq<JobId>)
    requires Distinct(ordered) && Elements(ordered) == jobs && SortedBy(ordered, SoonerIn(columns))
    ensures limit <= |ordered| ==> FirstOf(jobs, columns, limit, ordered[..limit])
    ensures limit > |ordered| ==> FirstOf(jobs, columns, limit, ordered)
  {
    DistinctSize(ordered);
    if limit <= |ordered| {
      var selected := ordered[..limit];
      assert Elements(selected) <= jobs by { assert forall j :: j in selected ==> j in ordered; }
      forall j, k | j in selected && k in jobs && k !in selected ensures SoonerIn(columns)(j, k) {
        assert k in ordered;
        var a :| 0 <= a < |selected| && selected[a] == j;
        var b :| 0 <= b < |ordered| && ordered[b] == k;
        assert forall i | 0 <= i < limit :: selected[i] == ordered[i];
        assert b >= limit;
        assert SortedBy(ordered, SoonerIn(columns)) && ordered[a] == j;
      }
    } else {
      assert forall k :: k in jobs ==> k in Elements(ordered);
    }
  }

  method InOrder(jobs: set<JobId>, columns: Columns) returns (ordered: seq<JobId>)
    ensures Distinct(ordered) && Elements(ordered) == jobs && SortedBy(ordered, SoonerIn(columns))
  {
    var listed: seq<JobId> := [];
    var rest := jobs;
    while rest != {}
      invariant rest <= jobs && Elements(listed) == jobs - rest && Distinct(listed)
    {
      var j :| j in rest;
      assert j !in Elements(listed);
      DistinctSnoc(listed, j);
      ElementsSnoc(listed, j);
      listed, rest := listed + [j], rest - {j};
    }
    SoonerOrders(columns);
    SortSorts(listed, SoonerIn(columns));
    ordered := Sort(listed, SoonerIn(columns));
    PermutationDistinct(listed, ordered);
    SameElements(listed, ordered);
  }

  class Database {
    var jobs: map<JobId, Job>
    var active: bool
    var tracked: set<JobId>

    ghost function Contents(): Rows
      reads this
    {
      Rows(jobs, active, tracked)
    }

    method WriteStatus(job: JobId, status: Status)
      requires job in jobs
      modifies this`jobs
      ensures jobs == old(jobs)[job := old(jobs)[job].(status := status)]
    {
      jobs := jobs[job := jobs[job].(status := status)];
    }

    /** Pauses and tracks the job when the drain is active. */
    method PauseJobIfActive(job: JobId) returns (paused: bool)
      requires job in jobs
      modifies this
      ensures paused == old(active)
      ensures Contents() == if old(active) then TrackPaused(old(Contents()), job) else old(Contents())
      ensures paused ==>
                active && tracked == old(tracked) + {job} && jobs == old(jobs)[job := old(jobs)[job].(status := Paused)]
    {
      paused := active;
      if paused {
        tracked := tracked + {job};
        WriteStatus(job, Paused);
      }
    }

    /** First transaction of starting a drain. */
    method Activate()
      modifies this
      ensures Contents() == if old(active) then old(Contents()) else Rows(old(jobs), true, {})
    {
      if !active {
        active, tracked := true, {};
      }
    }

    /** Second transaction: pauses, or asks to pause, every startable or running job not tracked yet. */
    method Sweep()
      modifies this
      ensures Contents() == SweepRows(old(Contents()))
      ensures jobs.Keys == old(jobs).Keys && active == old(active)
      ensures tracked ==
              old(tracked) + set j | j in old(jobs) && old(jobs)[j].status in {WaitingForCapacity, Pending, Running}
      ensures forall j :: j in jobs && j !in old(tracked) && old(jobs)[j].status == Pending ==>
                jobs[j] == old(jobs)[j].(status := Paused)
      ensures forall j :: j in jobs && j !in old(tracked) && old(jobs)[j].status in {WaitingForCapacity, Running} ==>
                jobs[j] == old(jobs)[j].(status := PauseRequested)
      ensures forall j ::
                && j in jobs
                && (j in old(tracked) || old(jobs)[j].status !in {WaitingForCapacity, Pending, Running}) ==>
                jobs[j] == old(jobs)[j]
    {
      var selected := set j | j in jobs && ToPause(jobs[j].status);
      ghost var untracked := selected - tracked;
      assert untracked == SweptJobs(old(Contents()));
      var todo := selected;
      var now := tracked;
      while todo != {}
        invariant todo <= selected && active == old(active) && tracked == old(tracked)
        invariant now == old(tracked) + (untracked - todo)
        invariant jobs.Keys == old(jobs).Keys
        invariant forall j :: j in jobs ==>
          jobs[j] == if j in untracked && j !in todo then old(jobs)[j].(status := SweptStatus(old(jobs)[j].status))
            else old(jobs)[j]
        decreases todo
      {
        var j :| j in todo;
        todo := todo - {j};
        if j in now {
          continue;
        }
        now := now + {j};
        WriteStatus(j, if jobs[j].status == Pending then Paused else PauseRequested);
      }
      tracked := now;
    }

    method Status() returns (status: DrainStatus)
      ensures status.active == active && status.tracked == tracked
      ensures status.waiting ==
              if active then set j | j in jobs && jobs[j].status in {Running, PauseRequested} else {}
      ensures status.Safe() <==> FinishSucceeds(Contents())
      ensures status.Safe() <==> active && forall j :: j in jobs ==> jobs[j].status !in {Running, PauseRequested}
    {
      var waiting := if active then set j | j in jobs && IsUnsafe(jobs[j].status) else {};
      status := DrainStatus(active, tracked, waiting);
      if active && waiting == {} {
        forall j | j in jobs ensures !IsUnsafe(jobs[j].status) {
          assert j !in waiting;
        }
      }
    }

    /** Resumes the tracked jobs that are still paused, unless some job is not safely paused. */
    method Finish() returns (result: FinishResult)
      modifies this
      ensures Contents() == FinishRows(old(Contents()))
      ensures result.Refused? <==> old(active) && !SafeToFinish(old(Contents()))
      ensures result.Refused? ==> Contents() == old(Contents())
      ensures result.Refused? ==> result.waiting != {}
      ensures result.Refused? ==>
                result.waiting == set j | j in old(jobs) && old(jobs)[j].status in {Running, PauseRequested}
      ensures result.Finished? && !old(active) ==> result.resumed == {} && Contents() == old(Contents())
      ensures result.Finished? && old(active) ==>
                && !active && tracked == {}
                && forall j :: j in old(jobs) ==> old(jobs)[j].status !in {Running, PauseRequested}
      ensures result.Finished? && old(active) ==>
                jobs == map j | j in old(jobs) ::
                  if j in old(tracked) && old(jobs)[j].status == Paused then old(jobs)[j].(status := Pending)
                  else old(jobs)[j]
      ensures result.Finished? && old(active) ==>
                result.resumed == set j | j in old(tracked) && j in old(jobs) && old(jobs)[j].status == Paused ::
                  Resumed(j, old(jobs)[j].attempts + 1)
    {
      if !active {
        return Finished({});
      }
      var status := Status();
      if status.waiting != {} {
        var j :| j in status.waiting;
        assert !SafeToFinish(Contents());
        return Refused(status.waiting);
      }
      assert SafeToFinish(Contents());
      var resumed := ReleaseTracked();
      active, tracked := false, {};
      result := Finished(resumed);
    }

    /** Makes the tracked, still paused jobs pending. */
    method ReleaseTracked() returns (resumed: set<Resumed>)
      modifies this`jobs
      ensures jobs == map j | j in old(jobs) ::
                if j in Releasable(old(Contents())) then old(jobs)[j].(status := Pending) else old(jobs)[j]
      ensures resumed == set j | j in Releasable(old(Contents())) :: Resumed(j, old(jobs)[j].attempts + 1)
    {
      var todo := set j | j in tracked && j in jobs;
      resumed := {};
      ghost var released := Releasable(old(Contents()));
      assert released <= todo;
      while todo != {}
        invariant todo <= tracked * jobs.Keys
        invariant jobs.Keys == old(jobs).Keys
        invariant forall j :: j in jobs ==>
          jobs[j] == if j in released && j !in todo then old(jobs)[j].(status := Pending) else old(jobs)[j]
        invariant resumed == set j | j in released && j !in todo :: Resumed(j, old(jobs)[j].attempts + 1)
        decreases todo
      {
        var j :| j in todo;
        todo := todo - {j};
        if jobs[j].status == Paused {
          WriteStatus(j, Pending);
          resumed := resumed + {Resumed(j, jobs[j].attempts + 1)};
        }
      }
    }

    /** A restarted worker parks the jobs no live worker owns. */
    method RecoverInterrupted(protected: set<JobId>)
      modifies this`jobs
      ensures Contents() == RecoverRows(old(Contents()), protected)
      ensures jobs == map j | j in old(jobs) ::
                if j !in protected && old(jobs)[j].status in {Running, PauseRequested} then
                  old(jobs)[j].(status := Paused)
                else if j !in protected && old(jobs)[j].status == CancelRequested then
                  old(jobs)[j].(status := Cancelled)
                else old(jobs)[j]
    {
      var selected := set j | j in jobs && (IsUnsafe(jobs[j].status) || jobs[j].status == CancelRequested);
      var todo := selected;
      while todo != {}
        invariant todo <= selected && jobs.Keys == old(jobs).Keys
        invariant forall j :: j in jobs ==>
          jobs[j] == if j in protected || j in todo then old(jobs)[j]
            else old(jobs)[j].(status := RecoveredStatus(old(jobs)[j].status))
        decreases todo
      {
        var j :| j in todo;
        todo := todo - {j};
        if j in protected {
          continue;
        }
        WriteStatus(j, if jobs[j].status == CancelRequested then Cancelled else Paused);
      }
    }

    /**
     Offers the first waiting jobs by priority and age to their queues, unless a drain is active.
     `locked` are those another dispatcher holds, `accepted` those the queues take.
     */
    method DispatchWaiting(columns: Columns, limit: nat, locked: set<JobId>, accepted: set<JobId>)
        returns (queuedCount: nat, selected: seq<JobId>)
      modifies this`jobs
      ensures old(active) ==> selected == []
      ensures !old(active) ==> FirstOf(Offerable(old(Contents()), locked), columns, limit, selected)
      ensures |selected| <= limit
      ensures forall j :: j in selected ==>
                j in old(jobs) && old(jobs)[j].status == WaitingForCapacity && j !in locked
      ensures !old(active) && |selected| < limit ==>
                forall k :: k in old(jobs) && old(jobs)[k].status == WaitingForCapacity && k !in locked ==>
                  k in selected
      ensures forall i, k ::
                && 0 <= i < |selected| && k in old(jobs) && old(jobs)[k].status == WaitingForCapacity
                && k !in locked && k !in selected[..i] ==>
                || columns.priority(selected[i]) < columns.priority(k)
                || (columns.priority(selected[i]) == columns.priority(k)
                   && columns.created(selected[i]) <= columns.created(k))
      ensures jobs == map j | j in old(jobs) ::
                if j in selected && j in accepted then old(jobs)[j].(status := Pending) else old(jobs)[j]
      ensures Contents() == DispatchRows(old(Contents()), Elements(selected) * accepted)
      ensures queuedCount == |Elements(selected) * accepted|
    {
      hide FirstOf, DispatchRows, Distinct;
      queuedCount, selected := 0, [];
      if active {
        NothingOffered(Contents(), accepted);
        return;
      }
      selected := SelectWaiting(columns, limit, locked);
      DispatchMeans(Contents(), selected, accepted);
      queuedCount := OfferAll(selected, accepted);
    }

    /** The first waiting jobs that no other dispatcher has locked. */
    method SelectWaiting(columns: Columns, limit: nat, locked: set<JobId>) returns (selected: seq<JobId>)
      ensures FirstOf(Offerable(Contents(), locked), columns, limit, selected)
      ensures Distinct(selected) && |selected| <= limit
      ensures forall j :: j in selected ==> j in jobs && jobs[j].status == WaitingForCapacity && j !in locked
      ensures |selected| < limit ==>
                forall k :: k in jobs && jobs[k].status == WaitingForCapacity && k !in locked ==> k in selected
      ensures forall i, k ::
                && 0 <= i < |selected| && k in jobs && jobs[k].status == WaitingForCapacity
                && k !in locked && k !in selected[..i] ==>
                || columns.priority(selected[i]) < columns.priority(k)
                || (columns.priority(selected[i]) == columns.priority(k)
                   && columns.created(selected[i]) <= columns.created(k))
    {
      hide FirstOf, SortedBy, Distinct;
      var waiting := set j | j in jobs && jobs[j].status == WaitingForCapacity && j !in locked;
      var ordered := InOrder(waiting, columns);
      selected := if limit <= |ordered| then ordered[..limit] else ordered;
      PrefixIsFirst(waiting, columns, limit, ordered);
      FirstAreWaiting(Contents(), locked, columns, limit, selected);
      FirstAreSoonest(waiting, columns, limit, selected);
    }

    /** Offers the jobs in turn; a job the queue refuses keeps waiting. */
    method OfferAll(selected: seq<JobId>, accepted: set<JobId>) returns (queuedCount: nat)
      requires Distinct(selected)
      requires forall j :: j in selected ==> j in jobs && jobs[j].status == WaitingForCapacity
      modifies this`jobs
      ensures Contents() == DispatchRows(old(Contents()), Elements(selected) * accepted)
      ensures queuedCount == |Elements(selected) * accepted|
    {
      hide DispatchRows, Distinct;
      queuedCount := 0;
      NothingOffered(Contents(), accepted);
      for i := 0 to |selected|
        invariant jobs.Keys == old(jobs).Keys && active == old(active) && tracked == old(tracked)
        invariant Contents() == DispatchRows(old(Contents()), Elements(selected[..i]) * accepted)
        invariant queuedCount == |Elements(selected[..i]) * accepted|
      {
        var j := selected[i];
        assert selected[..i + 1] == selected[..i] + [j];
        OfferedOne(old(Contents()), selected[..i], j, accepted);
        assert j !in selected[..i] by { NotEarlier(selected, i); }
        if j in accepted {
          WriteStatus(j, Pending);
          queuedCount := queuedCount + 1;
        }
      }
      assert selected[..|selected|] == selected;
    }

    /** A worker's claim of a job, from taking the control lock to the commit. */
    method ClaimOrPause(job: JobId) returns (claimed: bool)
      requires job in jobs
      modifies this
      ensures claimed <==> !old(active) && !OtherRunning(old(Contents()), job)
      ensures Contents() == if old(active) then TrackPaused(old(Contents()), job)
                            else if claimed then Claim(old(Contents()), job) else old(Contents())
      ensures !old(active) ==>
                (claimed <==> forall k ::
                   k in old(jobs) && k != job && old(jobs)[k].website == old(jobs)[job].website ==>
                   old(jobs)[k].status != Running)
      ensures claimed ==>
                && active == old(active) && tracked == old(tracked)
                && jobs == old(jobs)[job := old(jobs)[job].(status := Running, attempts := old(jobs)[job].attempts + 1)]
    {
      var paused := PauseJobIfActive(job);
      if paused {
        return false;
      }
      var rivals := set k | k in jobs && jobs[k].website == jobs[job].website && jobs[k].status == Running && k != job;
      if rivals != {} {
        var k :| k in rivals;
        return false;
      }
      assert !OtherRunning(Contents(), job) by {
        assert forall k :: k in jobs ==> k !in rivals;
      }
      jobs := jobs[job := jobs[job].(status := Running, attempts := jobs[job].attempts + 1)];
      return true;
    }
  }

  lemma NothingOffered(rows: Rows, accepted: set<JobId>)
    ensures Elements<JobId>([]) * accepted == {}
    ensures DispatchRows(rows, {}) == rows
  {
  }

  lemma NotEarlier(selected: seq<JobId>, i: nat)
    requires Distinct(selected) && i < |selected|
    ensures selected[i] !in selected[..i]
  {
  }

  lemma FirstAreWaiting(rows: Rows, locked: set<JobId>, columns: Columns, limit: nat, selected: seq<JobId>)
    requires FirstOf(Offerable(rows, locked), columns, limit, selected)
    ensures Distinct(selected)
    ensures forall j :: j in selected ==>
              j in rows.jobs && rows.jobs[j].status == WaitingForCapacity && j !in locked
  {
    forall j | j in selected ensures j in Offerable(rows, locked) {
      assert j in Elements(selected);
    }
  }

  /** No job that is selected later, or not at all, comes before a selected one. */
  lemma FirstAreSoonest(jobs: set<JobId>, columns: Columns, limit: nat, selected: seq<JobId>)
    requires FirstOf(jobs, columns, limit, selected)
    ensures |selected| <= limit
    ensures |selected| < limit ==> forall k :: k in jobs ==> k in selected
    ensures forall i, k :: 0 <= i < |selected| && k in jobs && k !in selected[..i] ==>
              || columns.priority(selected[i]) < columns.priority(k)
              || (columns.priority(selected[i]) == columns.priority(k)
                 && columns.created(selected[i]) <= columns.created(k))
  {
    if |selected| < limit {
      AllSelected(jobs, selected);
    }
    forall i, k | 0 <= i < |selected| && k in jobs && k !in selected[..i]
      ensures SoonerIn(columns)(selected[i], k)
    {
      if k in selected {
        var b :| 0 <= b < |selected| && selected[b] == k;
        LaterThan(selected, i, b);
      }
    }
  }

  lemma LaterThan(selected: seq<JobId>, i: nat, b: nat)
    requires i <= |selected| && b < |selected| && selected[b] !in selected[..i]
    ensures b >= i
  {
    forall a | 0 <= a < i ensures selected[a] in selected[..i] {
      assert selected[..i][a] == selected[a];
    }
  }

  lemma AllSelected(jobs: set<JobId>, selected: seq<JobId>)
    requires Distinct(selected) && Elements(selected) <= jobs && |selected| == |jobs|
    ensures forall k :: k in jobs ==> k in selected
  {
    DistinctSize(selected);
    var chosen := Elements(selected);
    assert jobs == chosen + (jobs - chosen);
    assert |jobs - chosen| == 0;
  }

  lemma DispatchMeans(rows: Rows, selected: seq<JobId>, accepted: set<JobId>)
    requires forall j :: j in selected ==> j in rows.jobs && rows.jobs[j].status == WaitingForCapacity
    ensures DispatchRows(rows, Elements(selected) * accepted).jobs == map j | j in rows.jobs ::
              if j in selected && j in accepted then rows.jobs[j].(status := Pending) else rows.jobs[j]
  {
  }

  /** One more job offered, and written when its queue takes it. */
  lemma OfferedOne(rows: Rows, done: seq<JobId>, j: JobId, accepted: set<JobId>)
    requires j in rows.jobs
    ensures
      var before := DispatchRows(rows, Elements(done) * accepted);
      var written := j in accepted && rows.jobs[j].status == WaitingForCapacity && j !in done;
      DispatchRows(rows, Elements(done + [j]) * accepted) == if written then SetStatus(before, j, Pending) else before
    ensures j !in done ==> |Elements(done + [j]) * accepted| == |Elements(done) * accepted| + One(j in accepted)
  {
    ElementsSnoc(done, j);
    if j in accepted {
      assert Elements(done + [j]) * accepted == Elements(done) * accepted + {j};
    } else {
      assert Elements(done + [j]) * accepted == Elements(done) * accepted;
    }
  }
}
