/**
 Analytics quality issues: one issue for each page whose figures are implausible, resolved by one
 clean check and verified by the next. The same loop serves both analytics providers.
 */
module QualityIssues {
  import opened Basics

  type Url = string

  /** Other covers the statuses that people set and this loop treats alike. */
  datatype Status = New | Resolved | Verified | Ignored | AcceptedRisk | Other(name: string)

  datatype Issue = Issue(url: Url, status: Status, firstDetectedAt: nat, lastDetectedAt: nat,
                         resolvedAt: Option<nat>, verifiedAt: Option<nat>)

  datatype Outcome = Created | Detected | NowResolved | NowVerified | Untouched

  datatype Counters = Counters(created: nat, resolved: nat, verified: nat)

  datatype Provider = Ga4 | Matomo

  /** One check in the activity log of the website. */
  datatype LogEntry = LogEntry(provider: Provider, outcome: string)

  // ---------- one page, one check ----------

  function Opened(url: Url, now: nat): Issue {
    Issue(url, New, now, now, None, None)
  }

  /** An anomaly creates or reopens the issue; an accepted risk only notes it. */
  function OnAnomaly(issue: Option<Issue>, url: Url, now: nat): Issue {
    match issue
    case None => Opened(url, now)
    case Some(i) =>
      var seen := i.(lastDetectedAt := now);
      if i.status.Resolved? || i.status.Verified? || i.status.Ignored?
      then seen.(status := New, resolvedAt := None, verifiedAt := None)
      else seen
  }

  predicate Settled(status: Status) {
    status.Ignored? || status.AcceptedRisk? || status.Verified?
  }

  function OnClean(issue: Option<Issue>, now: nat): Option<Issue> {
    match issue
    case None => None
    case Some(i) =>
      if Settled(i.status) then issue
      else if i.status.Resolved? then Some(i.(status := Verified, verifiedAt := Some(now)))
      else Some(i.(status := Resolved, resolvedAt := Some(now)))
  }

  function Transition(issue: Option<Issue>, url: Url, anomalous: bool, now: nat): Option<Issue> {
    if anomalous then Some(OnAnomaly(issue, url, now)) else OnClean(issue, now)
  }

  function OutcomeOf(issue: Option<Issue>, anomalous: bool): Outcome {
    if anomalous then (if issue.None? then Created else Detected)
    else if issue.None? || Settled(issue.value.status) then Untouched
    else if issue.value.status.Resolved? then NowVerified
    else NowResolved
  }

  // ---------- whole histories ----------

  datatype Run = Run(now: nat, checked: set<Url>, anomalous: set<Url>)

  /** What runs do to the issue of one page. */
  ghost function After(issue: Option<Issue>, runs: seq<Run>, url: Url): Option<Issue> {
    if runs == [] then issue else
      var run := runs[|runs| - 1];
      var before := After(issue, runs[..|runs| - 1], url);
      if url in run.checked then Transition(before, url, url in run.anomalous, run.now) else before
  }

  predicate Checks(run: Run, url: Url) { url in run.checked }

  predicate Finds(run: Run, url: Url) { url in run.checked && url in run.anomalous }

  /** The times of the clean checks since the last anomaly. */
  ghost function CleanTimes(runs: seq<Run>, url: Url): seq<nat> {
    if runs == [] then [] else
      var run := runs[|runs| - 1];
      if Finds(run, url) then []
      else if Checks(run, url) then CleanTimes(runs[..|runs| - 1], url) + [run.now]
      else CleanTimes(runs[..|runs| - 1], url)
  }

  /** The times of the checks that found an anomaly. */
  ghost function AnomalyTimes(runs: seq<Run>, url: Url): seq<nat> {
    if runs == [] then [] else
      var run := runs[|runs| - 1];
      AnomalyTimes(runs[..|runs| - 1], url) + (if Finds(run, url) then [run.now] else [])
  }

  function ByStreak(streak: nat): Status {
    if streak == 0 then New else if streak == 1 then Resolved else Verified
  }

  /** Without manual edits an issue is a function of the clean streak and of when it was seen. */
  ghost function Expected(runs: seq<Run>, url: Url): Option<Issue> {
    var anomalies, clean := AnomalyTimes(runs, url), CleanTimes(runs, url);
    if anomalies == [] then None
    else Some(Issue(url, ByStreak(|clean|), anomalies[0], anomalies[|anomalies| - 1],
                    if |clean| >= 1 then Some(clean[0]) else None,
                    if |clean| >= 2 then Some(clean[1]) else None))
  }

  lemma {:induction false} StatusFollowsStreak(runs: seq<Run>, url: Url)
    ensures After(None, runs, url) == Expected(runs, url)
    ensures
      var issue, streak := After(None, runs, url), |CleanTimes(runs, url)|;
      issue.Some? ==>
        && (issue.value.status == New <==> streak == 0)
        && (issue.value.status == Resolved <==> streak == 1)
        && (issue.value.status == Verified <==> streak >= 2)
  {
    if runs != [] {
      StatusFollowsStreak(runs[..|runs| - 1], url);
    }
  }

  /** An accepted risk stays one, with its timestamps, whatever the checks find. */
  lemma {:induction false} AcceptedRiskStays(issue: Issue, runs: seq<Run>, url: Url)
    requires issue.status == AcceptedRisk
    ensures After(Some(issue), runs, url).Some?
    ensures After(Some(issue), runs, url).value.(lastDetectedAt := issue.lastDetectedAt) == issue
  {
    if runs != [] { AcceptedRiskStays(issue, runs[..|runs| - 1], url); }
  }

  /** An ignored issue stays as it is until an anomaly, which starts it anew. */
  lemma {:induction false} IgnoredUntilAnomaly(issue: Issue, runs: seq<Run>, url: Url)
    requires issue.status == Ignored && issue.url == url
    ensures AnomalyTimes(runs, url) == [] ==> After(Some(issue), runs, url) == Some(issue)
    ensures AnomalyTimes(runs, url) != [] ==>
      After(Some(issue), runs, url) == Some(Expected(runs, url).value.(firstDetectedAt := issue.firstDetectedAt))
  {
    if runs != [] { IgnoredUntilAnomaly(issue, runs[..|runs| - 1], url); }
  }

  ghost predicate EverClean(runs: seq<Run>, url: Url) {
    exists i :: 0 <= i < |runs| && url in runs[i].checked && url !in runs[i].anomalous
  }

  lemma EverCleanNext(runs: seq<Run>, url: Url)
    requires runs != []
    ensures
      var run := runs[|runs| - 1];
      EverClean(runs, url) <==>
        EverClean(runs[..|runs| - 1], url) || (url in run.checked && url !in run.anomalous)
  {
    var before, run := runs[..|runs| - 1], runs[|runs| - 1];
    if EverClean(before, url) {
      var i :| 0 <= i < |before| && url in before[i].checked && url !in before[i].anomalous;
      assert url in runs[i].checked;
    }
    if i :| 0 <= i < |runs| && url in runs[i].checked && url !in runs[i].anomalous {
      if i < |before| { assert url in before[i].checked; }
    }
  }

  /** A status that people set stays until a first clean check, from which on the issue goes the usual way. */
  lemma {:induction false} OtherUntilClean(issue: Issue, runs: seq<Run>, url: Url)
    requires issue.status.Other? && issue.url == url
    ensures After(Some(issue), runs, url).Some?
    ensures
      var after, streak := After(Some(issue), runs, url).value, |CleanTimes(runs, url)|;
      && (!EverClean(runs, url) ==> after.(lastDetectedAt := issue.lastDetectedAt) == issue)
      && (EverClean(runs, url) ==>
          && (after.status == New <==> streak == 0)
          && (after.status == Resolved <==> streak == 1)
          && (after.status == Verified <==> streak >= 2))
  {
    if runs == [] {
      assert !EverClean(runs, url);
    } else {
      OtherUntilClean(issue, runs[..|runs| - 1], url);
      EverCleanNext(runs, url);
      CleanBefore(runs[..|runs| - 1], url);
    }
  }

  /** A clean streak is made of clean checks. */
  lemma {:induction false} CleanBefore(runs: seq<Run>, url: Url)
    ensures CleanTimes(runs, url) != [] ==> EverClean(runs, url)
  {
    if runs != [] {
      CleanBefore(runs[..|runs| - 1], url);
      EverCleanNext(runs, url);
    }
  }

  /** What an outcome says about the issue before and after the check. */
  lemma OutcomeMeans(issue: Option<Issue>, url: Url, anomalous: bool, now: nat)
    ensures
      var outcome, after := OutcomeOf(issue, anomalous), Transition(issue, url, anomalous, now);
      && (outcome == Created <==> issue.None? && after.Some?)
      && (outcome == Created ==> after == Some(Issue(url, New, now, now, None, None)))
      && (outcome == NowResolved <==>
          issue.Some? && after.Some? && issue.value.status != Resolved && after.value.status == Resolved)
      && (outcome == NowVerified <==>
          issue.Some? && after.Some? && issue.value.status == Resolved && after.value.status == Verified)
      && (outcome == Detected <==> anomalous && issue.Some?)
      && (outcome == Untouched <==> !anomalous && after == issue)
  {
  }

  // ---------- the issue table ----------

  ghost function Lookup(issues: seq<Issue>, url: Url): Option<Issue> {
    if issues == [] then None
    else if issues[0].url == url then Some(issues[0])
    else Lookup(issues[1..], url)
  }

  ghost predicate OnePerUrl(issues: seq<Issue>) {
    forall i, j :: 0 <= i < j < |issues| ==> issues[i].url != issues[j].url
  }

  lemma {:induction false} LookupAt(issues: seq<Issue>, i: nat)
    requires OnePerUrl(issues) && i < |issues|
    ensures Lookup(issues, issues[i].url) == Some(issues[i])
  {
    if i > 0 { LookupAt(issues[1..], i - 1); }
  }

  lemma {:induction false} LookupNone(issues: seq<Issue>, url: Url)
    requires forall i :: 0 <= i < |issues| ==> issues[i].url != url
    ensures Lookup(issues, url) == None
  {
    if issues != [] { LookupNone(issues[1..], url); }
  }

  lemma {:induction false} LookupFound(issues: seq<Issue>, url: Url)
    requires Lookup(issues, url).Some?
    ensures Lookup(issues, url).value in issues && Lookup(issues, url).value.url == url
  {
    if issues[0].url != url { LookupFound(issues[1..], url); }
  }

  lemma {:induction false} LookupUpdated(issues: seq<Issue>, i: nat, issue: Issue, url: Url)
    requires OnePerUrl(issues) && i < |issues| && issue.url == issues[i].url
    ensures Lookup(issues[i := issue], url) == if url == issue.url then Some(issue) else Lookup(issues, url)
  {
    if i > 0 {
      LookupUpdated(issues[1..], i - 1, issue, url);
      assert issues[i := issue][1..] == issues[1..][i - 1 := issue];
    } else {
      assert issues[i := issue][1..] == issues[1..];
    }
  }

  lemma {:induction false} LookupAdded(issues: seq<Issue>, issue: Issue, url: Url)
    requires Lookup(issues, issue.url) == None
    ensures Lookup(issues + [issue], url) == if url == issue.url then Some(issue) else Lookup(issues, url)
  {
    if issues != [] {
      LookupAdded(issues[1..], issue, url);
      assert (issues + [issue])[1..] == issues[1..] + [issue];
    }
  }

  lemma AddedOnePerUrl(issues: seq<Issue>, issue: Issue)
    requires OnePerUrl(issues) && Lookup(issues, issue.url) == None
    ensures OnePerUrl(issues + [issue])
  {
    forall i | 0 <= i < |issues| ensures issues[i].url != issue.url {
      LookupAt(issues, i);
    }
  }

  /** The table holds the next state of url and is otherwise unchanged. */
  ghost predicate Stepped(before: seq<Issue>, issues: seq<Issue>, url: Url, anomalous: bool, now: nat) {
    && OnePerUrl(issues)
    && Lookup(issues, url) == Transition(Lookup(before, url), url, anomalous, now)
    && forall v :: v != url ==> Lookup(issues, v) == Lookup(before, v)
  }

  lemma UpdateSteps(before: seq<Issue>, i: nat, url: Url, anomalous: bool, now: nat)
    requires OnePerUrl(before) && i < |before| && before[i].url == url
    ensures Transition(Some(before[i]), url, anomalous, now).Some?
    ensures Stepped(before, before[i := Transition(Some(before[i]), url, anomalous, now).value], url, anomalous, now)
  {
    var issue := Transition(Some(before[i]), url, anomalous, now).value;
    LookupAt(before, i);
    forall v ensures Lookup(before[i := issue], v) == if v == url then Some(issue) else Lookup(before, v) {
      LookupUpdated(before, i, issue, v);
    }
  }

  lemma CreateSteps(before: seq<Issue>, url: Url, now: nat)
    requires OnePerUrl(before) && Lookup(before, url) == None
    ensures Stepped(before, before + [Opened(url, now)], url, true, now)
  {
    AddedOnePerUrl(before, Opened(url, now));
    forall v
      ensures Lookup(before + [Opened(url, now)], v) == if v == url then Some(Opened(url, now)) else Lookup(before, v)
    {
      LookupAdded(before, Opened(url, now), v);
    }
  }

  /** A whole run: every checked page moves one step, and no other page moves. */
  ghost predicate Reconciled(before: seq<Issue>, issues: seq<Issue>, run: Run) {
    && OnePerUrl(issues)
    && forall u :: Lookup(issues, u) ==
                   if u in run.checked
                   then Transition(Lookup(before, u), u, u in run.anomalous, run.now) else Lookup(before, u)
  }

  lemma ReconciledNext(before: seq<Issue>, middle: seq<Issue>, issues: seq<Issue>, run: Run, u: Url)
    requires Reconciled(before, middle, run) && u !in run.checked
    requires Stepped(middle, issues, u, u in run.anomalous, run.now)
    ensures Reconciled(before, issues, run.(checked := run.checked + {u}))
  {
    hide Lookup, Transition, OnePerUrl;
  }

  ghost predicate Tracks(issues: seq<Issue>, runs: seq<Run>) {
    forall u :: Lookup(issues, u) == After(None, runs, u)
  }

  /** Run after run, the table holds what the streaks say. */
  lemma TracksNext(before: seq<Issue>, issues: seq<Issue>, runs: seq<Run>, run: Run)
    requires Tracks(before, runs) && Reconciled(before, issues, run)
    ensures Tracks(issues, runs + [run])
  {
    assert (runs + [run])[..|runs|] == runs;
  }

  /** The checked pages with the given outcome. */
  ghost function Those(before: seq<Issue>, run: Run, outcome: Outcome): set<Url> {
    set u | u in run.checked && OutcomeOf(Lookup(before, u), u in run.anomalous) == outcome
  }

  ghost predicate Counted(before: seq<Issue>, run: Run, c: Counters) {
    && c.created == |Those(before, run, Created)|
    && c.resolved == |Those(before, run, NowResolved)|
    && c.verified == |Those(before, run, NowVerified)|
  }

  function Add(c: Counters, outcome: Outcome): Counters {
    match outcome
    case Created => c.(created := c.created + 1)
    case NowResolved => c.(resolved := c.resolved + 1)
    case NowVerified => c.(verified := c.verified + 1)
    case _ => c
  }

  lemma ThoseNext(before: seq<Issue>, run: Run, u: Url, outcome: Outcome)
    requires u !in run.checked
    ensures |Those(before, run.(checked := run.checked + {u}), outcome)| ==
            |Those(before, run, outcome)| + One(OutcomeOf(Lookup(before, u), u in run.anomalous) == outcome)
  {
    hide Lookup, OutcomeOf;
    var more := run.(checked := run.checked + {u});
    if OutcomeOf(Lookup(before, u), u in run.anomalous) == outcome {
      assert Those(before, more, outcome) == Those(before, run, outcome) + {u};
    } else {
      assert Those(before, more, outcome) == Those(before, run, outcome);
    }
  }

  lemma CountedNext(before: seq<Issue>, run: Run, c: Counters, u: Url)
    requires u !in run.checked && Counted(before, run, c)
    ensures Counted(before, run.(checked := run.checked + {u}),
                    Add(c, OutcomeOf(Lookup(before, u), u in run.anomalous)))
  {
    hide Those, Lookup, OutcomeOf;
    ThoseNext(before, run, u, Created);
    ThoseNext(before, run, u, NowResolved);
    ThoseNext(before, run, u, NowVerified);
  }
}
