/**
 The two reconciliation loops over the issue tables, and the quality status shown to users.
 */
module AnalyticsQuality {
  import opened Basics
  import opened QualityIssues

  datatype Anomaly = Anomaly(url: Url, events: real, sessions: nat)

  const RECENT_CHECKS := 20

  ghost function AnomalousUrls(anomalies: seq<Anomaly>): set<Url> {
    set a | a in anomalies :: a.url
  }

  lemma AnomalousNext(anomalies: seq<Anomaly>, a: Anomaly)
    ensures AnomalousUrls(anomalies + [a]) == AnomalousUrls(anomalies) + {a.url}
  {
    forall u ensures u in AnomalousUrls(anomalies + [a]) <==> u in AnomalousUrls(anomalies) + {a.url} {
      if u in AnomalousUrls(anomalies) {
        var x :| x in anomalies && x.url == u;
        assert x in anomalies + [a];
      }
      assert a in anomalies + [a];
    }
  }

  function OutcomeText(outcome: Outcome): string {
    match outcome
    case NowResolved => "resolved"
    case NowVerified => "verified"
    case _ => "attention_needed"
  }

  /** What a run adds to the log: one entry for each resolved, verified and anomalous page. */
  ghost predicate Noted(before: seq<LogEntry>, log: seq<LogEntry>, provider: Provider, c: Counters, attention: nat) {
    && |log| == |before| + c.resolved + c.verified + attention
    && log[..|before|] == before
    && (forall i :: |before| <= i < |log| ==> log[i].provider == provider)
    && multiset(log[|before|..])[LogEntry(provider, "resolved")] == c.resolved
    && multiset(log[|before|..])[LogEntry(provider, "verified")] == c.verified
    && multiset(log[|before|..])[LogEntry(provider, "attention_needed")] == attention
  }

  predicate Attends(outcome: Outcome) {
    outcome == Created || outcome == Detected
  }

  function EntryOf(provider: Provider, outcome: Outcome): seq<LogEntry> {
    if outcome == Untouched then [] else [LogEntry(provider, OutcomeText(outcome))]
  }

  lemma NotedMore(before: seq<LogEntry>, log: seq<LogEntry>, provider: Provider, c: Counters, attention: nat,
                  outcome: Outcome)
    requires Noted(before, log, provider, c, attention)
    ensures Noted(before, log + EntryOf(provider, outcome), provider, Add(c, outcome),
                  attention + One(Attends(outcome)))
  {
    var more := log + EntryOf(provider, outcome);
    assert more[..|before|] == log[..|before|];
    assert more[|before|..] == log[|before|..] + EntryOf(provider, outcome);
  }

  /** A run that found no anomaly, over pages without issues, is logged as clean and as nothing else. */
  ghost predicate RunNoted(before: seq<LogEntry>, log: seq<LogEntry>, provider: Provider, c: Counters, attention: nat,
                           clean: bool) {
    if clean then log == before + [LogEntry(provider, "clean")] else Noted(before, log, provider, c, attention)
  }

  method FindIssue(issues: seq<Issue>, url: Url) returns (i: nat)
    requires OnePerUrl(issues)
    ensures i <= |issues|
    ensures i < |issues| ==> issues[i].url == url && Lookup(issues, url) == Some(issues[i])
    ensures i == |issues| ==> Lookup(issues, url) == None
  {
    i := 0;
    while i < |issues| && issues[i].url != url
      invariant i <= |issues|
      invariant forall j :: 0 <= j < i ==> issues[j].url != url
    {
      i := i + 1;
    }
    if i < |issues| {
      LookupAt(issues, i);
    } else {
      LookupNone(issues, url);
    }
  }

  lemma NothingSteps(issues: seq<Issue>, url: Url, now: nat)
    requires OnePerUrl(issues)
    requires Lookup(issues, url).Some? ==> Settled(Lookup(issues, url).value.status)
    ensures Stepped(issues, issues, url, false, now)
  {
  }

  ghost function OfUrl(anomalies: seq<Anomaly>, url: Url): seq<Anomaly> {
    if anomalies == [] then [] else
      var last := anomalies[|anomalies| - 1];
      OfUrl(anomalies[..|anomalies| - 1], url) + (if last.url == url then [last] else [])
  }

  function ListAt(byUrl: map<Url, seq<Anomaly>>, url: Url): seq<Anomaly> {
    if url in byUrl then byUrl[url] else []
  }

  ghost predicate GroupedBy(byUrl: map<Url, seq<Anomaly>>, anomalies: seq<Anomaly>) {
    byUrl.Keys == AnomalousUrls(anomalies) && forall u :: ListAt(byUrl, u) == OfUrl(anomalies, u)
  }

  lemma GroupedNext(byUrl: map<Url, seq<Anomaly>>, anomalies: seq<Anomaly>, a: Anomaly)
    requires GroupedBy(byUrl, anomalies)
    ensures GroupedBy(byUrl[a.url := ListAt(byUrl, a.url) + [a]], anomalies + [a])
  {
    hide AnomalousUrls;
    AnomalousNext(anomalies, a);
    assert (anomalies + [a])[..|anomalies|] == anomalies;
    var next := byUrl[a.url := ListAt(byUrl, a.url) + [a]];
    forall u ensures ListAt(next, u) == OfUrl(anomalies + [a], u) {
      assert ListAt(byUrl, u) == OfUrl(anomalies, u);
    }
  }

  /** Groups the anomalies of a period by page. */
  method GroupAnomalies(anomalies: seq<Anomaly>) returns (byUrl: map<Url, seq<Anomaly>>)
    ensures GroupedBy(byUrl, anomalies)
  {
    byUrl := map[];
    for i := 0 to |anomalies|
      invariant GroupedBy(byUrl, anomalies[..i])
    {
      hide GroupedBy;
      assert anomalies[..i + 1] == anomalies[..i] + [anomalies[i]];
      GroupedNext(byUrl, anomalies[..i], anomalies[i]);
      byUrl := byUrl[anomalies[i].url := ListAt(byUrl, anomalies[i].url) + [anomalies[i]]];
    }
    assert anomalies[..|anomalies|] == anomalies;
  }

  ghost function HowMany(anomalies: seq<Anomaly>, urls: set<Url>): nat {
    if anomalies == [] then 0
    else HowMany(anomalies[..|anomalies| - 1], urls) + One(anomalies[|anomalies| - 1].url in urls)
  }

  lemma {:induction false} HowManyMore(anomalies: seq<Anomaly>, urls: set<Url>, u: Url)
    requires u !in urls
    ensures HowMany(anomalies, urls + {u}) == HowMany(anomalies, urls) + |OfUrl(anomalies, u)|
  {
    if anomalies != [] { HowManyMore(anomalies[..|anomalies| - 1], urls, u); }
  }

  lemma {:induction false} HowManyAll(anomalies: seq<Anomaly>, urls: set<Url>)
    ensures AnomalousUrls(anomalies) <= urls ==> HowMany(anomalies, urls) == |anomalies|
    ensures urls == {} ==> HowMany(anomalies, urls) == 0
  {
    if anomalies != [] {
      var before, last := anomalies[..|anomalies| - 1], anomalies[|anomalies| - 1];
      HowManyAll(before, urls);
      assert anomalies == before + [last];
      AnomalousNext(before, last);
    }
  }

  /** The lengths of all groups together. */
  method CountGrouped(byUrl: map<Url, seq<Anomaly>>, ghost anomalies: seq<Anomaly>) returns (count: nat)
    requires GroupedBy(byUrl, anomalies)
    ensures count == |anomalies|
  {
    hide AnomalousUrls;
    count := 0;
    var rest := byUrl.Keys;
    HowManyAll(anomalies, {});
    assert byUrl.Keys - rest == {};
    while rest != {}
      invariant rest <= byUrl.Keys && count == HowMany(anomalies, byUrl.Keys - rest)
    {
      var u :| u in rest;
      HowManyMore(anomalies, byUrl.Keys - rest, u);
      assert ListAt(byUrl, u) == OfUrl(anomalies, u);
      assert byUrl.Keys - (rest - {u}) == byUrl.Keys - rest + {u};
      count := count + |byUrl[u]|;
      rest := rest - {u};
    }
    assert byUrl.Keys - rest == byUrl.Keys;
    HowManyAll(anomalies, byUrl.Keys);
  }

  method AnyExisting(issues: seq<Issue>, urls: set<Url>) returns (any: bool)
    requires OnePerUrl(issues)
    ensures any <==> exists u :: u in urls && Lookup(issues, u).Some?
  {
    any := exists i :: 0 <= i < |issues| && issues[i].url in urls;
    if any {
      var i :| 0 <= i < |issues| && issues[i].url in urls;
      LookupAt(issues, i);
    }
    forall u | u in urls && Lookup(issues, u).Some? ensures any {
      LookupFound(issues, u);
    }
  }

  /** The state of a run after some of its pages. */
  ghost predicate Underway(before: seq<Issue>, issues: seq<Issue>, run: Run, c: Counters) {
    OnePerUrl(issues) && Reconciled(before, issues, run) && Counted(before, run, c)
  }

  lemma NothingDone(issues: seq<Issue>, now: nat, anomalous: set<Url>)
    requires OnePerUrl(issues)
    ensures Underway(issues, issues, Run(now, {}, anomalous), Counters(0, 0, 0))
  {
    forall outcome ensures Those(issues, Run(now, {}, anomalous), outcome) == {} {
    }
  }

  lemma StillToCome(before: seq<Issue>, middle: seq<Issue>, run: Run, u: Url)
    requires Reconciled(before, middle, run) && u !in run.checked
    ensures Lookup(middle, u) == Lookup(before, u)
  {
  }

  lemma PageDone(before: seq<Issue>, middle: seq<Issue>, issues: seq<Issue>, run: Run, c: Counters, u: Url,
                 outcome: Outcome)
    requires Underway(before, middle, run, c) && u !in run.checked
    requires Stepped(middle, issues, u, u in run.anomalous, run.now)
    requires outcome == OutcomeOf(Lookup(middle, u), u in run.anomalous)
    ensures Underway(before, issues, run.(checked := run.checked + {u}), Add(c, outcome))
  {
    hide Lookup, OutcomeOf, Counted, OnePerUrl, Add;
    ReconciledNext(before, middle, issues, run, u);
    StillToCome(before, middle, run, u);
    CountedNext(before, run, c, u);
    assert OnePerUrl(issues);
  }

  /** A run after some of its pages, with what it logged. */
  ghost predicate Progressed(before: seq<Issue>, issues: seq<Issue>, log0: seq<LogEntry>, log: seq<LogEntry>,
                             provider: Provider, run: Run, c: Counters) {
    Underway(before, issues, run, c) && Noted(log0, log, provider, c, AnomalousIn(run.checked, run.anomalous))
  }

  lemma RunStarts(issues: seq<Issue>, log: seq<LogEntry>, provider: Provider, now: nat, anomalous: set<Url>)
    requires OnePerUrl(issues)
    ensures Progressed(issues, issues, log, log, provider, Run(now, {}, anomalous), Counters(0, 0, 0))
  {
    hide Underway, Noted, OnePerUrl;
    NothingDone(issues, now, anomalous);
    NothingNoted(log, provider, anomalous);
  }

  lemma PageRecorded(before: seq<Issue>, middle: seq<Issue>, issues: seq<Issue>, log0: seq<LogEntry>,
                     log: seq<LogEntry>, provider: Provider, run: Run, c: Counters, u: Url, outcome: Outcome)
    requires Progressed(before, middle, log0, log, provider, run, c) && u !in run.checked
    requires Stepped(middle, issues, u, u in run.anomalous, run.now)
    requires outcome == OutcomeOf(Lookup(middle, u), u in run.anomalous)
    ensures Progressed(before, issues, log0, log + EntryOf(provider, outcome), provider,
                       run.(checked := run.checked + {u}), Add(c, outcome))
  {
    hide Underway, Noted, Stepped, Lookup, OutcomeOf, AnomalousIn, Attends, EntryOf, Add;
    PageDone(before, middle, issues, run, c, u, outcome);
    NotedMore(log0, log, provider, c, AnomalousIn(run.checked, run.anomalous), outcome);
    OneMore(run.checked, run.anomalous, u, Lookup(middle, u));
  }

  lemma StaysUnique(before: seq<Issue>, issues: seq<Issue>, log0: seq<LogEntry>, log: seq<LogEntry>,
                    provider: Provider, run: Run, c: Counters)
    requires Progressed(before, issues, log0, log, provider, run, c)
    ensures OnePerUrl(issues)
  {
  }

  /** A run that moved nothing logged nothing. */
  lemma QuietRun(before: seq<Issue>, issues: seq<Issue>, log0: seq<LogEntry>, log: seq<LogEntry>,
                 provider: Provider, run: Run, c: Counters)
    requires Progressed(before, issues, log0, log, provider, run, c)
    requires forall u :: u in run.checked ==> u !in run.anomalous && Lookup(before, u).None?
    ensures log == log0
  {
    hide Reconciled, OnePerUrl, Lookup;
    forall outcome | outcome != Untouched ensures Those(before, run, outcome) == {} {
    }
    assert run.checked * run.anomalous == {};
    assert log == log[..|log0|];
  }

  lemma NothingNoted(log: seq<LogEntry>, provider: Provider, anomalous: set<Url>)
    ensures Noted(log, log, provider, Counters(0, 0, 0), AnomalousIn({}, anomalous))
  {
    assert {} * anomalous == {};
  }

  ghost function AnomalousIn(checked: set<Url>, anomalous: set<Url>): nat {
    |checked * anomalous|
  }

  /** Exactly the anomalous pages call for attention. */
  lemma OneMore(done: set<Url>, anomalous: set<Url>, u: Url, issue: Option<Issue>)
    requires u !in done
    ensures AnomalousIn(done + {u}, anomalous) ==
      AnomalousIn(done, anomalous) + One(Attends(OutcomeOf(issue, u in anomalous)))
  {
    if u in anomalous {
      assert (done + {u}) * anomalous == done * anomalous + {u};
    } else {
      assert (done + {u}) * anomalous == done * anomalous;
    }
  }

  /** The issue tables of one website, one for each provider, and its log of checks. */
  class Monitor {
    var ga4: seq<Issue>
    var matomo: seq<Issue>
    var log: seq<LogEntry>
    ghost var history: seq<Check>

    /** Tables and log are what the runs so far have made them. */
    ghost predicate Valid()
      reads this
    {
      Consistent(ga4, matomo, log, history)
    }

    constructor ()
      ensures Valid() && history == []
    {
      ga4, matomo, log, history := [], [], [], [];
      new;
      NothingYet();
    }

    /** One page of one Ga4 run. */
    method CheckGa4Url(url: Url, anomalous: bool, now: nat) returns (outcome: Outcome)
      requires OnePerUrl(ga4)
      modifies this`ga4, this`log
      ensures Stepped(old(ga4), ga4, url, anomalous, now)
      ensures outcome == OutcomeOf(Lookup(old(ga4), url), anomalous)
      ensures log == old(log) + EntryOf(Ga4, outcome)
    {
      hide OnePerUrl, Stepped;
      outcome := Untouched;
      var i := FindIssue(ga4, url);
      if anomalous {
        if i == |ga4| {
          outcome := Created;
          CreateSteps(ga4, url, now);
          ga4 := ga4 + [Issue(url, New, now, now, None, None)];
        } else {
          outcome := Detected;
          UpdateSteps(ga4, i, url, anomalous, now);
          var issue := ga4[i].(lastDetectedAt := now);
          if issue.status.Resolved? || issue.status.Verified? || issue.status.Ignored? {
            issue := issue.(status := New, resolvedAt := None, verifiedAt := None);
          }
          ga4 := ga4[i := issue];
        }
        log := log + [LogEntry(Ga4, "attention_needed")];
      } else if i < |ga4| && !Settled(ga4[i].status) {
        UpdateSteps(ga4, i, url, anomalous, now);
        if ga4[i].status.Resolved? {
          ga4 := ga4[i := ga4[i].(status := Verified, verifiedAt := Some(now))];
          outcome := NowVerified;
          log := log + [LogEntry(Ga4, "verified")];
        } else {
          ga4 := ga4[i := ga4[i].(status := Resolved, resolvedAt := Some(now))];
          outcome := NowResolved;
          log := log + [LogEntry(Ga4, "resolved")];
        }
      } else {
        NothingSteps(ga4, url, now);
      }
    }

    /** One page of one Matomo run. */
    method CheckMatomoUrl(url: Url, anomalous: bool, now: nat) returns (outcome: Outcome)
      requires OnePerUrl(matomo)
      modifies this`matomo, this`log
      ensures Stepped(old(matomo), matomo, url, anomalous, now)
      ensures outcome == OutcomeOf(Lookup(old(matomo), url), anomalous)
      ensures log == old(log) + EntryOf(Matomo, outcome)
    {
      hide OnePerUrl, Stepped;
      outcome := Untouched;
      var i := FindIssue(matomo, url);
      if anomalous {
        if i == |matomo| {
          outcome := Created;
          CreateSteps(matomo, url, now);
          matomo := matomo + [Issue(url, New, now, now, None, None)];
        } else {
          outcome := Detected;
          UpdateSteps(matomo, i, url, anomalous, now);
          var issue := matomo[i].(lastDetectedAt := now);
          if issue.status.Resolved? || issue.status.Verified? || issue.status.Ignored? {
            issue := issue.(status := New, resolvedAt := None, verifiedAt := None);
          }
          matomo := matomo[i := issue];
        }
        log := log + [LogEntry(Matomo, "attention_needed")];
      } else if i < |matomo| && !Settled(matomo[i].status) {
        UpdateSteps(matomo, i, url, anomalous, now);
        if matomo[i].status.Resolved? {
          matomo := matomo[i := matomo[i].(status := Verified, verifiedAt := Some(now))];
          outcome := NowVerified;
          log := log + [LogEntry(Matomo, "verified")];
        } else {
          matomo := matomo[i := matomo[i].(status := Resolved, resolvedAt := Some(now))];
          outcome := NowResolved;
          log := log + [LogEntry(Matomo, "resolved")];
        }
      } else {
        NothingSteps(matomo, url, now);
      }
    }

    /** Checks the pages of a GA4 period; does nothing unless GA4 is the configured primary source. */
    method ReconcileGa4(configured: bool, visited: set<Url>, anomalies: seq<Anomaly>, now: nat)
        returns (found: nat, c: Counters)
      requires Valid()
      modifies this
      ensures Valid()
      ensures !configured ==> (ga4, matomo, log, history) == old((ga4, matomo, log, history))
      ensures !configured ==> found == 0 && c == Counters(0, 0, 0)
      ensures configured ==> found == |anomalies| && matomo == old(matomo)
      ensures
        var run := Run(now, visited + AnomalousUrls(anomalies), AnomalousUrls(anomalies));
        configured ==> RunDone(old(ga4), ga4, old(log), log, Ga4, run, c) && history == old(history) + [Check(Ga4, run)]
    {
      hide Consistent, OnePerUrl, Progressed, GroupedBy, AnomalousUrls, RunDone, Stepped, OutcomeOf, Add;
      found, c := 0, Counters(0, 0, 0);
      if !configured { return; }
      var byUrl := GroupAnomalies(anomalies);
      GroupedKeys(byUrl, anomalies);
      var checked := visited + byUrl.Keys;
      UniqueTables(ga4, matomo, log, history);
      var existing := AnyExisting(ga4, checked);
      RunStarts(ga4, log, Ga4, now, byUrl.Keys);
      var rest := checked;
      assert checked - rest == {};
      while rest != {}
        invariant rest <= checked && matomo == old(matomo) && history == old(history)
        invariant Progressed(old(ga4), ga4, old(log), log, Ga4, Run(now, checked - rest, byUrl.Keys), c)
      {
        var url :| url in rest;
        ghost var middle, soFar, run := ga4, log, Run(now, checked - rest, byUrl.Keys);
        StaysUnique(old(ga4), ga4, old(log), log, Ga4, run, c);
        var outcome := CheckGa4Url(url, url in byUrl, now);
        PageRecorded(old(ga4), middle, ga4, old(log), soFar, Ga4, run, c, url, outcome);
        assert checked - (rest - {url}) == checked - rest + {url};
        c := Add(c, outcome);
        rest := rest - {url};
      }
      assert checked - rest == checked;
      ghost var logged := log;
      if anomalies == [] && !existing {
        log := log + [LogEntry(Ga4, "clean")];
      }
      ghost var run := Run(now, checked, byUrl.Keys);
      RunEnds(old(ga4), ga4, old(log), logged, log, Ga4, run, c);
      history := history + [Check(Ga4, run)];
      ConsistentNext(old(ga4), old(matomo), ga4, matomo, old(log), log, old(history), Ga4, run, c);
      found := |anomalies|;
    }

    /** Checks the pages of a Matomo period, among which are those with anomalies. */
    method ReconcileMatomo(checked: set<Url>, anomalies: seq<Anomaly>, now: nat) returns (found: nat, c: Counters)
      requires Valid() && AnomalousUrls(anomalies) <= checked
      modifies this
      ensures Valid()
      ensures found == |anomalies| && ga4 == old(ga4)
      ensures
        var run := Run(now, checked, AnomalousUrls(anomalies));
        RunDone(old(matomo), matomo, old(log), log, Matomo, run, c) && history == old(history) + [Check(Matomo, run)]
    {
      hide Consistent, OnePerUrl, Progressed, GroupedBy, AnomalousUrls, RunDone, Stepped, OutcomeOf, Add;
      c := Counters(0, 0, 0);
      var byUrl := GroupAnomalies(anomalies);
      GroupedKeys(byUrl, anomalies);
      UniqueTables(ga4, matomo, log, history);
      var existing := AnyExisting(matomo, checked);
      RunStarts(matomo, log, Matomo, now, byUrl.Keys);
      var rest := checked;
      assert checked - rest == {};
      while rest != {}
        invariant rest <= checked && ga4 == old(ga4) && history == old(history)
        invariant Progressed(old(matomo), matomo, old(log), log, Matomo, Run(now, checked - rest, byUrl.Keys), c)
      {
        var url :| url in rest;
        ghost var middle, soFar, run := matomo, log, Run(now, checked - rest, byUrl.Keys);
        StaysUnique(old(matomo), matomo, old(log), log, Matomo, run, c);
        var outcome := CheckMatomoUrl(url, url in byUrl, now);
        PageRecorded(old(matomo), middle, matomo, old(log), soFar, Matomo, run, c, url, outcome);
        assert checked - (rest - {url}) == checked - rest + {url};
        c := Add(c, outcome);
        rest := rest - {url};
      }
      assert checked - rest == checked;
      ghost var logged := log;
      if byUrl == map[] && !existing {
        log := log + [LogEntry(Matomo, "clean")];
      }
      ghost var run := Run(now, checked, byUrl.Keys);
      RunEnds(old(matomo), matomo, old(log), logged, log, Matomo, run, c);
      history := history + [Check(Matomo, run)];
      ConsistentNext(old(ga4), old(matomo), ga4, matomo, old(log), log, old(history), Matomo, run, c);
      found := CountGrouped(byUrl, anomalies);
    }

    /** The status of a configured provider is a function of the history. */
    method ShowStatus(provider: Provider) returns (status: Quality)
      requires Valid()
      ensures ByHistory(status, RecentlyShown(history, provider), RunsOf(history, provider))
    {
      hide Consistent;
      status := QualityStatus(TableOf(ga4, matomo, provider), log, provider);
      StatusByHistory(ga4, matomo, log, history, provider);
    }
  }

  lemma GroupedKeys(byUrl: map<Url, seq<Anomaly>>, anomalies: seq<Anomaly>)
    requires GroupedBy(byUrl, anomalies)
    ensures byUrl.Keys == AnomalousUrls(anomalies)
    ensures byUrl == map[] <==> anomalies == []
    ensures byUrl == map[] <==> byUrl.Keys == {}
  {
    NoAnomalies(anomalies);
    if byUrl.Keys == {} { assert byUrl == map[]; }
  }

  ghost predicate NothingFound(issues: seq<Issue>, run: Run) {
    run.anomalous == {} && forall u :: u in run.checked ==> Lookup(issues, u).None?
  }

  /** A whole run: every checked page moved, counted and logged. */
  ghost predicate RunDone(before: seq<Issue>, issues: seq<Issue>, log0: seq<LogEntry>, log: seq<LogEntry>,
                          provider: Provider, run: Run, c: Counters) {
    && Underway(before, issues, run, c)
    && RunNoted(log0, log, provider, c, AnomalousIn(run.checked, run.anomalous), NothingFound(before, run))
  }

  lemma RunEnds(before: seq<Issue>, issues: seq<Issue>, log0: seq<LogEntry>, logged: seq<LogEntry>, log: seq<LogEntry>,
                provider: Provider, run: Run, c: Counters)
    requires Progressed(before, issues, log0, logged, provider, run, c)
    requires log == if NothingFound(before, run) then logged + [LogEntry(provider, "clean")] else logged
    ensures RunDone(before, issues, log0, log, provider, run, c)
  {
    hide Underway, Noted;
    if NothingFound(before, run) { QuietRun(before, issues, log0, logged, provider, run, c); }
  }

  lemma NoAnomalies(anomalies: seq<Anomaly>)
    ensures AnomalousUrls(anomalies) == {} <==> anomalies == []
  {
    if anomalies != [] {
      assert anomalies[0] in anomalies;
      assert anomalies[0].url in AnomalousUrls(anomalies);
    }
  }

  // ---------- histories of both providers ----------

  datatype Check = Check(provider: Provider, run: Run)

  ghost function RunsOf(history: seq<Check>, provider: Provider): seq<Run> {
    if history == [] then [] else
      var last := history[|history| - 1];
      RunsOf(history[..|history| - 1], provider) + (if last.provider == provider then [last.run] else [])
  }

  /** At some time an anomaly was found on the page. */
  ghost predicate Affected(runs: seq<Run>, u: Url) {
    AnomalyTimes(runs, u) != []
  }

  ghost function Streak(runs: seq<Run>, u: Url): nat {
    |CleanTimes(runs, u)|
  }

  /** The checked pages whose issue a run moves or opens, after the given earlier runs. */
  ghost function Moved(runs: seq<Run>, run: Run): set<Url> {
    set u | u in run.checked && (u in run.anomalous || (Affected(runs, u) && Streak(runs, u) < 2))
  }

  ghost predicate AllClean(runs: seq<Run>, run: Run) {
    run.anomalous == {} && forall u :: u in run.checked ==> !Affected(runs, u)
  }

  /** How many log entries a run makes. */
  ghost function EntryCount(runs: seq<Run>, run: Run): nat {
    if AllClean(runs, run) then 1 else |Moved(runs, run)|
  }

  /** A run stays silent exactly if it finds nothing new on pages of which some have verified issues. */
  lemma SilentIff(runs: seq<Run>, run: Run)
    requires run.anomalous <= run.checked
    ensures EntryCount(runs, run) == 0 <==>
      && run.anomalous == {}
      && (exists u :: u in run.checked && Affected(runs, u))
      && forall u :: u in run.checked && Affected(runs, u) ==> Streak(runs, u) >= 2
  {
    hide Affected, Streak;
    if Moved(runs, run) == {} {
      forall u | u in run.checked ensures u !in run.anomalous && (Affected(runs, u) ==> Streak(runs, u) >= 2) {
        assert u !in Moved(runs, run);
      }
    } else {
      var u :| u in Moved(runs, run);
    }
  }

  function Repeat(provider: Provider, n: nat): seq<Provider> {
    seq(n, _ => provider)
  }

  /** The providers of the log entries that a history makes, in order. */
  ghost function Shown(history: seq<Check>): seq<Provider> {
    if history == [] then [] else
      var before, last := history[..|history| - 1], history[|history| - 1];
      Shown(before) + Repeat(last.provider, EntryCount(RunsOf(before, last.provider), last.run))
  }

  ghost function ProvidersOf(log: seq<LogEntry>): (p: seq<Provider>)
    ensures |p| == |log| && forall i :: 0 <= i < |log| ==> p[i] == log[i].provider
  {
    seq(|log|, i requires 0 <= i < |log| => log[i].provider)
  }

  function TableOf(ga4: seq<Issue>, matomo: seq<Issue>, provider: Provider): seq<Issue> {
    if provider == Ga4 then ga4 else matomo
  }

  /** While no page of a provider was affected, its entries all say clean. */
  ghost predicate CleanSoFar(log: seq<LogEntry>, runs: seq<Run>, provider: Provider) {
    (forall u :: !Affected(runs, u)) ==> forall i :: 0 <= i < |log| && log[i].provider == provider ==>
      log[i].outcome == "clean"
  }

  ghost predicate Consistent(ga4: seq<Issue>, matomo: seq<Issue>, log: seq<LogEntry>, history: seq<Check>) {
    && OnePerUrl(ga4) && Tracks(ga4, RunsOf(history, Ga4)) && CleanSoFar(log, RunsOf(history, Ga4), Ga4)
    && OnePerUrl(matomo) && Tracks(matomo, RunsOf(history, Matomo)) && CleanSoFar(log, RunsOf(history, Matomo), Matomo)
    && ProvidersOf(log) == Shown(history)
  }

  lemma NothingYet()
    ensures Consistent([], [], [], [])
  {
  }

  lemma UniqueTables(ga4: seq<Issue>, matomo: seq<Issue>, log: seq<LogEntry>, history: seq<Check>)
    requires Consistent(ga4, matomo, log, history)
    ensures OnePerUrl(ga4) && OnePerUrl(matomo)
  {
  }

  lemma OutcomeByStreak(issues: seq<Issue>, runs: seq<Run>, u: Url)
    requires Tracks(issues, runs)
    ensures Lookup(issues, u).None? <==> !Affected(runs, u)
    ensures OutcomeOf(Lookup(issues, u), false) == NowResolved <==> Affected(runs, u) && Streak(runs, u) == 0
    ensures OutcomeOf(Lookup(issues, u), false) == NowVerified <==> Affected(runs, u) && Streak(runs, u) == 1
  {
    assert Lookup(issues, u) == After(None, runs, u);
    StatusFollowsStreak(runs, u);
  }

  lemma ThreeParts(whole: set<Url>, a: set<Url>, b: set<Url>, c: set<Url>)
    requires whole == a + b + c && a !! b && a !! c && b !! c
    ensures |whole| == |a| + |b| + |c|
  {
  }

  /** The counters and the anomalous pages make up the moved pages. */
  lemma MovedCount(issues: seq<Issue>, runs: seq<Run>, run: Run, c: Counters)
    requires Tracks(issues, runs) && Counted(issues, run, c)
    ensures c.resolved + c.verified + AnomalousIn(run.checked, run.anomalous) == |Moved(runs, run)|
  {
    hide Tracks, Affected, Streak, Lookup, OutcomeOf;
    var resolved, verified := Those(issues, run, NowResolved), Those(issues, run, NowVerified);
    var anomalous := run.checked * run.anomalous;
    forall u | u in run.checked
      ensures u in resolved <==> u !in run.anomalous && Affected(runs, u) && Streak(runs, u) == 0
      ensures u in verified <==> u !in run.anomalous && Affected(runs, u) && Streak(runs, u) == 1
    {
      OutcomeByStreak(issues, runs, u);
      AnomalousOutcome(Lookup(issues, u));
    }
    ThreeParts(Moved(runs, run), resolved, verified, anomalous);
  }

  lemma AnomalousOutcome(issue: Option<Issue>)
    ensures OutcomeOf(issue, true) != NowResolved && OutcomeOf(issue, true) != NowVerified
  {
  }

  lemma FoundByStreak(issues: seq<Issue>, runs: seq<Run>, run: Run)
    requires Tracks(issues, runs)
    ensures NothingFound(issues, run) <==> AllClean(runs, run)
  {
    hide Tracks, Affected, Lookup;
    forall u ensures Lookup(issues, u).None? <==> !Affected(runs, u) { OutcomeByStreak(issues, runs, u); }
  }

  /** The log of a run has as many entries as its history says, all of its provider. */
  lemma LogGrows(before: seq<Issue>, issues: seq<Issue>, log0: seq<LogEntry>, log: seq<LogEntry>,
                 provider: Provider, runs: seq<Run>, run: Run, c: Counters)
    requires Tracks(before, runs) && RunDone(before, issues, log0, log, provider, run, c)
    ensures ProvidersOf(log) == ProvidersOf(log0) + Repeat(provider, EntryCount(runs, run))
    ensures |log0| <= |log| && log[..|log0|] == log0
    ensures forall i :: |log0| <= i < |log| ==> log[i].provider == provider
    ensures AllClean(runs, run) ==> forall i :: |log0| <= i < |log| ==> log[i].outcome == "clean"
  {
    hide Tracks, Reconciled, OnePerUrl, Counted, Moved, AllClean, NothingFound;
    FoundByStreak(before, runs, run);
    MovedCount(before, runs, run, c);
    assert forall i | 0 <= i < |log0| :: log[i] == log[..|log0|][i];
  }

  lemma StillAffected(runs: seq<Run>, run: Run, u: Url)
    ensures Affected(runs, u) || (u in run.checked && u in run.anomalous) <==> Affected(runs + [run], u)
  {
    assert (runs + [run])[..|runs|] == runs;
  }

  lemma StillClean(log0: seq<LogEntry>, log: seq<LogEntry>, runs: seq<Run>, run: Run, provider: Provider)
    requires CleanSoFar(log0, runs, provider) && |log0| <= |log| && log[..|log0|] == log0
    requires AllClean(runs, run) ==> forall i :: |log0| <= i < |log| ==> log[i].outcome == "clean"
    requires run.anomalous <= run.checked
    ensures CleanSoFar(log, runs + [run], provider)
  {
    hide Affected;
    forall u { StillAffected(runs, run, u); }
    if forall u :: !Affected(runs + [run], u) {
      assert run.anomalous == {} by { assert forall u :: u in run.anomalous ==> Affected(runs + [run], u); }
      assert forall i | 0 <= i < |log0| :: log[i] == log0[i];
    }
  }

  lemma OtherClean(log0: seq<LogEntry>, log: seq<LogEntry>, runs: seq<Run>, provider: Provider)
    requires CleanSoFar(log0, runs, provider) && |log0| <= |log| && log[..|log0|] == log0
    requires forall i :: |log0| <= i < |log| ==> log[i].provider != provider
    ensures CleanSoFar(log, runs, provider)
  {
    assert forall i | 0 <= i < |log0| :: log[i] == log0[i];
  }

  /** Every run of either provider keeps tables and log in step with the history. */
  lemma ConsistentNext(ga4: seq<Issue>, matomo: seq<Issue>, ga4': seq<Issue>, matomo': seq<Issue>,
                       log0: seq<LogEntry>, log: seq<LogEntry>, history: seq<Check>,
                       provider: Provider, run: Run, c: Counters)
    requires Consistent(ga4, matomo, log0, history) && run.anomalous <= run.checked
    requires RunDone(TableOf(ga4, matomo, provider), TableOf(ga4', matomo', provider), log0, log, provider, run, c)
    requires if provider == Ga4 then matomo' == matomo else ga4' == ga4
    ensures Consistent(ga4', matomo', log, history + [Check(provider, run)])
  {
    hide CleanSoFar, Tracks, Reconciled, RunNoted, Counted, NothingFound, AllClean, EntryCount, ProvidersOf;
    var before, after := TableOf(ga4, matomo, provider), TableOf(ga4', matomo', provider);
    var runs := RunsOf(history, provider);
    var other := if provider == Ga4 then Matomo else Ga4;
    assert (history + [Check(provider, run)])[..|history|] == history;
    assert RunsOf(history + [Check(provider, run)], provider) == runs + [run];
    assert RunsOf(history + [Check(provider, run)], other) == RunsOf(history, other) + [] == RunsOf(history, other);
    LogGrows(before, after, log0, log, provider, runs, run, c);
    TracksNext(before, after, runs, run);
    StillClean(log0, log, runs, run, provider);
    OtherClean(log0, log, RunsOf(history, other), other);
  }

  // ---------- the status shown ----------

  /** The provider's checks among the last twenty of the website. */
  function Recent(log: seq<LogEntry>, provider: Provider): seq<LogEntry> {
    OfProvider(if |log| > RECENT_CHECKS then log[|log| - RECENT_CHECKS..] else log, provider)
  }

  function OfProvider(log: seq<LogEntry>, provider: Provider): seq<LogEntry> {
    if log == [] then []
    else (if log[0].provider == provider then [log[0]] else []) + OfProvider(log[1..], provider)
  }

  function CleanChecks(log: seq<LogEntry>): nat {
    if log == [] then 0 else (if log[0].outcome == "clean" then 1 else 0) + CleanChecks(log[1..])
  }

  datatype Quality = InsufficientData | AttentionNeeded | Provisional | Reliable

  predicate Passed(status: Status) {
    status.Resolved? || status.Verified?
  }

  function QualityStatus(issues: seq<Issue>, log: seq<LogEntry>, provider: Provider): Quality {
    var checks := Recent(log, provider);
    if checks == [] then InsufficientData
    else if (exists i :: 0 <= i < |issues| && !Passed(issues[i].status)) then AttentionNeeded
    else if (exists i :: 0 <= i < |issues| && issues[i].status.Resolved?) then Provisional
    else if issues != [] then Reliable
    else if CleanChecks(checks) >= 2 then Reliable
    else Provisional
  }

  /** The status of any table and log, whoever wrote them. */
  lemma StatusMeans(issues: seq<Issue>, log: seq<LogEntry>, provider: Provider)
    ensures
      var recent := if |log| > 20 then log[|log| - 20..] else log;
      var status := QualityStatus(issues, log, provider);
      && (status == InsufficientData <==> forall e :: e in recent ==> e.provider != provider)
      && (status == AttentionNeeded <==>
          && (exists e :: e in recent && e.provider == provider)
          && exists i :: 0 <= i < |issues| && issues[i].status !in {Resolved, Verified})
      && (status == Reliable && issues != [] ==> forall i :: 0 <= i < |issues| ==> issues[i].status == Verified)
  {
    var recent := if |log| > 20 then log[|log| - 20..] else log;
    assert Recent(log, provider) == OfProvider(recent, provider);
    SomeOfProvider(recent, provider);
  }

  lemma {:induction false} SomeOfProvider(log: seq<LogEntry>, provider: Provider)
    ensures OfProvider(log, provider) == [] <==> forall e :: e in log ==> e.provider != provider
  {
    if log != [] {
      SomeOfProvider(log[1..], provider);
      assert log == [log[0]] + log[1..];
    }
  }

  lemma IssueFromRuns(issues: seq<Issue>, runs: seq<Run>, i: nat)
    requires OnePerUrl(issues) && Tracks(issues, runs) && i < |issues|
    ensures Affected(runs, issues[i].url) && issues[i].status == ByStreak(Streak(runs, issues[i].url))
  {
    LookupAt(issues, i);
    assert Lookup(issues, issues[i].url) == After(None, runs, issues[i].url);
    StatusFollowsStreak(runs, issues[i].url);
  }

  lemma AffectedHasIssue(issues: seq<Issue>, runs: seq<Run>, u: Url)
    requires OnePerUrl(issues) && Tracks(issues, runs) && Affected(runs, u)
    ensures exists i :: 0 <= i < |issues| && issues[i].url == u && issues[i].status == ByStreak(Streak(runs, u))
  {
    assert Lookup(issues, u) == After(None, runs, u);
    StatusFollowsStreak(runs, u);
    LookupFound(issues, u);
    var i :| 0 <= i < |issues| && issues[i] == Lookup(issues, u).value;
  }

  /** Once checked, the status is decided by the shortest clean streak of the affected pages. */
  lemma StatusByStreaks(issues: seq<Issue>, log: seq<LogEntry>, provider: Provider, runs: seq<Run>)
    requires OnePerUrl(issues) && Tracks(issues, runs) && Recent(log, provider) != []
    ensures QualityStatus(issues, log, provider) == AttentionNeeded <==>
      exists u :: Affected(runs, u) && Streak(runs, u) == 0
    ensures issues != [] ==>
      (QualityStatus(issues, log, provider) == Reliable <==> forall u :: Affected(runs, u) ==> Streak(runs, u) >= 2)
    ensures issues == [] <==> forall u :: !Affected(runs, u)
  {
    hide Tracks, OnePerUrl, Affected, Streak;
    forall i | 0 <= i < |issues|
      ensures Affected(runs, issues[i].url) && issues[i].status == ByStreak(Streak(runs, issues[i].url))
    {
      IssueFromRuns(issues, runs, i);
    }
    forall u | Affected(runs, u)
      ensures exists i :: 0 <= i < |issues| && issues[i].url == u && issues[i].status == ByStreak(Streak(runs, u))
    {
      AffectedHasIssue(issues, runs, u);
    }
    if issues != [] { assert Affected(runs, issues[0].url); }
  }

  // ---------- the status as a function of the history ----------

  ghost function CountOf(providers: seq<Provider>, provider: Provider): nat {
    if providers == [] then 0 else One(providers[0] == provider) + CountOf(providers[1..], provider)
  }

  /** How many of the last twenty entries that the history makes are the provider's. */
  ghost function RecentlyShown(history: seq<Check>, provider: Provider): nat {
    var shown := Shown(history);
    CountOf(if |shown| > 20 then shown[|shown| - 20..] else shown, provider)
  }

  lemma {:induction false} OfProviderCount(log: seq<LogEntry>, provider: Provider)
    ensures |OfProvider(log, provider)| == CountOf(ProvidersOf(log), provider)
    ensures forall e :: e in OfProvider(log, provider) ==> e in log && e.provider == provider
  {
    if log != [] {
      OfProviderCount(log[1..], provider);
      assert ProvidersOf(log)[1..] == ProvidersOf(log[1..]);
    }
  }

  lemma RecentCount(log: seq<LogEntry>, history: seq<Check>, provider: Provider)
    requires ProvidersOf(log) == Shown(history)
    ensures |Recent(log, provider)| == RecentlyShown(history, provider)
    ensures forall e :: e in Recent(log, provider) ==> e in log && e.provider == provider
  {
    hide CountOf;
    if |log| > RECENT_CHECKS {
      var tail := log[|log| - RECENT_CHECKS..];
      OfProviderCount(tail, provider);
      assert ProvidersOf(tail) == ProvidersOf(log)[|log| - RECENT_CHECKS..];
    } else {
      OfProviderCount(log, provider);
    }
  }

  lemma {:induction false} AllCleanChecks(log: seq<LogEntry>)
    requires forall e :: e in log ==> e.outcome == "clean"
    ensures CleanChecks(log) == |log|
  {
    if log != [] { AllCleanChecks(log[1..]); }
  }

  lemma CleanRecent(log: seq<LogEntry>, runs: seq<Run>, history: seq<Check>, provider: Provider)
    requires ProvidersOf(log) == Shown(history) && CleanSoFar(log, runs, provider) && forall u :: !Affected(runs, u)
    ensures CleanChecks(Recent(log, provider)) == RecentlyShown(history, provider)
  {
    hide Affected, RecentlyShown;
    RecentCount(log, history, provider);
    AllCleanChecks(Recent(log, provider));
  }

  lemma StatusWithoutIssues(log: seq<LogEntry>, provider: Provider)
    requires Recent(log, provider) != []
    ensures QualityStatus([], log, provider) ==
            if CleanChecks(Recent(log, provider)) >= 2 then Reliable else Provisional
  {
    hide Recent, CleanChecks;
  }

  /**
   After any runs of both providers the status is a function of their history: of how many recent
   entries the provider has, and of the clean streaks of its affected pages.
   */
  lemma StatusByHistory(ga4: seq<Issue>, matomo: seq<Issue>, log: seq<LogEntry>, history: seq<Check>,
                        provider: Provider)
    requires Consistent(ga4, matomo, log, history)
    ensures
      ByHistory(QualityStatus(TableOf(ga4, matomo, provider), log, provider), RecentlyShown(history, provider),
                RunsOf(history, provider))
  {
    hide Tracks, OnePerUrl, Affected, Streak, RecentlyShown, Recent, CleanSoFar, ProvidersOf, Shown;
    var issues, runs := TableOf(ga4, matomo, provider), RunsOf(history, provider);
    assert OnePerUrl(issues) && Tracks(issues, runs) && CleanSoFar(log, runs, provider);
    RecentCount(log, history, provider);
    if Recent(log, provider) != [] {
      StatusByStreaks(issues, log, provider, runs);
      if issues == [] {
        CleanRecent(log, runs, history, provider);
        StatusWithoutIssues(log, provider);
      } else {
        assert exists u :: Affected(runs, u);
      }
    } else {
      assert QualityStatus(issues, log, provider) == InsufficientData;
    }
  }

  /** The status for a number of recent entries of the provider and its runs. */
  ghost predicate ByHistory(status: Quality, recent: nat, runs: seq<Run>) {
    && (status == InsufficientData <==> recent == 0)
    && (status == AttentionNeeded <==> recent > 0 && exists u :: Affected(runs, u) && Streak(runs, u) == 0)
    && (status == Reliable <==> AllVerified(runs) && recent >= if SomeAffected(runs) then 1 else 2)
  }

  ghost predicate AllVerified(runs: seq<Run>) {
    forall u :: Affected(runs, u) ==> Streak(runs, u) >= 2
  }

  ghost predicate SomeAffected(runs: seq<Run>) {
    exists u :: Affected(runs, u)
  }

  // ---------- a checked provider without data ----------

  /** One GA4 run and then n Matomo runs, over periods without pages. */
  ghost function QuietHistory(n: nat): seq<Check> {
    [Check(Ga4, Run(0, {}, {}))] + seq(n, i requires 0 <= i < n => Check(Matomo, Run(i + 1, {}, {})))
  }

  lemma {:induction false} QuietShown(n: nat)
    ensures Shown(QuietHistory(n)) == [Ga4] + Repeat(Matomo, n)
    ensures forall u :: !Affected(RunsOf(QuietHistory(n), Matomo), u)
  {
    var history := QuietHistory(n);
    if n == 0 {
      assert history[..0] == [] && Shown([]) == [];
      assert EntryCount([], Run(0, {}, {})) == 1;
      assert RunsOf(history, Matomo) == [];
    } else {
      QuietShown(n - 1);
      var before := QuietHistory(n - 1);
      assert history[..n] == before && history[n] == Check(Matomo, Run(n, {}, {}));
      hide Affected;
      assert EntryCount(RunsOf(before, Matomo), Run(n, {}, {})) == 1;
      forall u { StillAffected(RunsOf(before, Matomo), Run(n, {}, {}), u); }
    }
  }

  ghost function QuietLog(n: nat): seq<LogEntry> {
    [LogEntry(Ga4, "clean")] + seq(n, i requires 0 <= i < n => LogEntry(Matomo, "clean"))
  }

  lemma QuietRunDone(log: seq<LogEntry>, provider: Provider, now: nat)
    ensures RunDone([], [], log, log + [LogEntry(provider, "clean")], provider, Run(now, {}, {}), Counters(0, 0, 0))
  {
    NothingDone([], now, {});
    hide Underway;
    assert NothingFound([], Run(now, {}, {}));
  }

  /** Such runs leave empty tables and one clean entry each. */
  lemma {:induction false} QuietConsistent(n: nat)
    ensures Consistent([], [], QuietLog(n), QuietHistory(n))
  {
    hide Consistent, RunDone;
    if n == 0 {
      NothingYet();
      QuietRunDone([], Ga4, 0);
      assert [] + [LogEntry(Ga4, "clean")] == QuietLog(0) && [] + [Check(Ga4, Run(0, {}, {}))] == QuietHistory(0);
      ConsistentNext([], [], [], [], [], QuietLog(0), [], Ga4, Run(0, {}, {}), Counters(0, 0, 0));
    } else {
      QuietConsistent(n - 1);
      QuietRunDone(QuietLog(n - 1), Matomo, n);
      assert QuietLog(n - 1) + [LogEntry(Matomo, "clean")] == QuietLog(n);
      assert QuietHistory(n - 1) + [Check(Matomo, Run(n, {}, {}))] == QuietHistory(n);
      ConsistentNext([], [], [], [], QuietLog(n - 1), QuietLog(n), QuietHistory(n - 1), Matomo, Run(n, {}, {}),
                     Counters(0, 0, 0));
    }
  }

  /** Twenty runs of the other provider hide a provider's check: it shows insufficient data although it was checked. */
  lemma CheckedWithoutData()
    ensures Consistent([], [], QuietLog(20), QuietHistory(20)) && RunsOf(QuietHistory(20), Ga4) != []
    ensures QualityStatus([], QuietLog(20), Ga4) == InsufficientData
  {
    QuietRunsOfGa4(20);
    QuietConsistent(20);
    hide Consistent, Shown, RunsOf, QuietHistory, QualityStatus, QuietLog;
    QuietShown(20);
    var shown := [Ga4] + Repeat(Matomo, 20);
    assert shown[1..] == Repeat(Matomo, 20);
    NoneOf(Repeat(Matomo, 20));
    StatusByHistory([], [], QuietLog(20), QuietHistory(20), Ga4);
  }

  lemma {:induction false} QuietRunsOfGa4(n: nat)
    ensures RunsOf(QuietHistory(n), Ga4) != []
  {
    if n == 0 {
      assert QuietHistory(0)[..0] == [];
    } else {
      QuietRunsOfGa4(n - 1);
      assert QuietHistory(n)[..n] == QuietHistory(n - 1);
    }
  }

  lemma {:induction false} NoneOf(providers: seq<Provider>)
    requires forall i :: 0 <= i < |providers| ==> providers[i] == Matomo
    ensures CountOf(providers, Ga4) == 0
  {
    if providers != [] { NoneOf(providers[1..]); }
  }
}
