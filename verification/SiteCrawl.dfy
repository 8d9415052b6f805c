/**
 One call of the full-site crawl: the loop over the frontier, what following a link does to it, and
 what holds when the call ends, completes or is interrupted and later resumed.
 */
module SiteCrawls {
  import opened Basics
  import opened Sorting
  import opened CrawlFrontier

  /** Depths only appear or shrink. */
  ghost predicate DepthsShrink(before: map<UrlId, nat>, after: map<UrlId, nat>) {
    forall u :: u in before ==> u in after && after[u] <= before[u]
  }

  /** t is a link on the crawled page u, which was crawled at depth d. */
  ghost predicate OnCrawledPage(site: Site, v: View, u: UrlId, d: Option<nat>, t: UrlId) {
    && u in v.visited && t in site.links(u)
    && (d.Some? ==> ReachedIn(site, v.witnesses, u, d.value))
    && (Regular(v) ==> d == Some(v.level))
  }

  lemma AssetWorklist(site: Site, v: View, t: UrlId)
    requires Worklist(site, v) && !site.html(t)
    ensures Worklist(site, v.(auditedAssets := v.auditedAssets + {t}, snapshots := v.snapshots + {t}))
  {
    assert HtmlSnapshots(site, v.snapshots + {t}) == HtmlSnapshots(site, v.snapshots);
  }

  lemma PageWorklist(site: Site, v: View, d: Option<nat>, t: UrlId)
    requires Worklist(site, v) && site.html(t)
    ensures Worklist(site, AfterPage(site, v, d, t))
  {
    if t !in v.pendingIds {
      EnqueueNew(v.pending, LinkEntry(d, t));
    }
  }

  lemma LinkWorklist(site: Site, v: View, d: Option<nat>, t: UrlId)
    requires Worklist(site, v)
    ensures Worklist(site, AfterLink(site, v, d, t))
  {
    if site.html(t) { PageWorklist(site, v, d, t); } else { AssetWorklist(site, v, t); }
  }

  lemma LowerSound(site: Site, visited: set<UrlId>, depth: map<UrlId, nat>, u: UrlId, d: Option<nat>, t: UrlId)
    requires Witnessed(site, visited, depth)
    requires u in visited && t in site.links(u) && (d.Some? ==> ReachedIn(site, visited, u, d.value))
    ensures Witnessed(site, visited, LowerDepth(depth, d, t))
    ensures d.Some? ==> ReachedIn(site, visited, t, d.value + 1)
  {
    if d.Some? {
      ReachedStep(site, visited, u, t, d.value);
    }
  }

  lemma QueueAfterLower(site: Site, visited: set<UrlId>, depth: map<UrlId, nat>, pending: seq<Entry>, d: Option<nat>,
                        t: UrlId)
    requires QueueSound(site, visited, depth, pending)
    requires d.Some? ==> ReachedIn(site, visited, t, d.value + 1)
    ensures QueueSound(site, visited, LowerDepth(depth, d, t), pending)
    ensures QueueSound(site, visited, LowerDepth(depth, d, t), pending + [LinkEntry(d, t)])
  {
  }

  lemma LinkDepths(site: Site, v: View, u: UrlId, d: Option<nat>, t: UrlId)
    requires DepthsSound(site, v) && OnCrawledPage(site, v, u, d, t) && v.visited <= v.witnesses
    ensures DepthsSound(site, AfterLink(site, v, d, t))
  {
    hide ReachedIn, Witnessed, QueueSound, LowerDepth;
    LowerSound(site, v.witnesses, v.depth, u, d, t);
    QueueAfterLower(site, v.witnesses, v.depth, v.pending, d, t);
  }

  lemma LinkShrinks(site: Site, v: View, d: Option<nat>, t: UrlId)
    ensures DepthsShrink(v.depth, AfterLink(site, v, d, t).depth)
  {
  }

  lemma NewMemberCounted(site: Site, counts: map<Group, nat>, frontierIds: set<UrlId>, t: UrlId)
    requires ExactCounts(site, counts, frontierIds)
    requires t !in frontierIds && !Capped(site, frontierIds, counts, t)
    ensures var g := site.group(t);
            ExactCounts(site, if g.Some? then counts[g.value := CountOf(counts, g.value) + 1] else counts,
                        frontierIds + {t})
  {
    var g := site.group(t);
    var after := if g.Some? then counts[g.value := CountOf(counts, g.value) + 1] else counts;
    forall h ensures CountOf(after, h) == |Members(site.group, frontierIds + {t}, h)| <= MAX_QUERY_VARIANTS_PER_PATH {
      assert CountOf(counts, h) == |Members(site.group, frontierIds, h)| <= MAX_QUERY_VARIANTS_PER_PATH;
      MembersAdd(site.group, frontierIds, t, h);
    }
  }

  lemma LinkCounts(site: Site, v: View, d: Option<nat>, t: UrlId)
    requires ExactCounts(site, v.counts, v.frontierIds)
    ensures var w := AfterLink(site, v, d, t); ExactCounts(site, w.counts, w.frontierIds)
  {
    if t in v.frontierIds {
      assert v.frontierIds + {t} == v.frontierIds;
    } else if !Capped(site, v.frontierIds, v.counts, t) {
      NewMemberCounted(site, v.counts, v.frontierIds, t);
    }
  }

  /** Full groups stay full, so a handled link stays handled. */
  lemma LinkHandled(site: Site, v: View, d: Option<nat>, t: UrlId)
    ensures var w := AfterLink(site, v, d, t);
            && Handled(site, w.frontierIds, w.counts, t)
            && (forall s :: Handled(site, v.frontierIds, v.counts, s) ==> Handled(site, w.frontierIds, w.counts, s))
  {
    var w := AfterLink(site, v, d, t);
    assert forall g :: CountOf(w.counts, g) >= CountOf(v.counts, g);
  }

  /** From a page at the current level, only a page outside the frontier gets a depth. */
  lemma LevelKept(site: Site, v: View, t: UrlId)
    requires Worklist(site, v) && BreadthFirst(site, v)
    ensures LowerDepth(v.depth, Some(v.level), t) ==
            if t in v.frontierIds then v.depth else v.depth[t := v.level + 1]
    ensures t in v.frontierIds ==> DepthOf(v.depth, t) <= v.level + 1
  {
    if t in v.pendingIds && t !in v.inactive {
      var e :| e in v.pending && e.id == t;
    }
  }

  lemma PageBreadthFirst(site: Site, v: View, t: UrlId)
    requires Worklist(site, v) && BreadthFirst(site, v)
    ensures BreadthFirst(site, AfterPage(site, v, Some(v.level), t))
  {
    LevelKept(site, v, t);
    forall e | e in v.pending ensures e.id in v.frontierIds { assert e.id in v.pendingIds; }
  }

  lemma LinkBreadthFirst(site: Site, v: View, t: UrlId)
    requires Worklist(site, v) && BreadthFirst(site, v)
    ensures var w := AfterLink(site, v, Some(v.level), t);
            && BreadthFirst(site, w)
            && (t in w.frontierIds ==> DepthOf(w.depth, t) <= v.level + 1)
            && (forall u :: u in v.frontierIds ==> DepthOf(w.depth, u) == DepthOf(v.depth, u))
  {
    LevelKept(site, v, t);
    PageBreadthFirst(site, v, t);
  }

  lemma LinkRelaxed(site: Site, v: View, t: UrlId)
    requires Worklist(site, v) && BreadthFirst(site, v)
    requires LinksHandled(site, v.followed, v.frontierIds, v.counts)
    requires LinksRelaxed(site, v.followed, v.frontierIds, v.depth)
    ensures var w := AfterLink(site, v, Some(v.level), t);
            LinksRelaxed(site, w.followed, w.frontierIds, w.depth)
  {
    var w := AfterLink(site, v, Some(v.level), t);
    LinkBreadthFirst(site, v, t);
    forall u, s | u in w.followed && s in site.links(u) && s in w.frontierIds
      ensures DepthOf(w.depth, s) <= DepthOf(w.depth, u) + 1
    {
      assert Handled(site, v.frontierIds, v.counts, s);
      assert u in v.frontierIds && s in v.frontierIds;
    }
  }

  lemma LinkKeeps(site: Site, v: View, u: UrlId, d: Option<nat>, t: UrlId)
    requires Invariant(site, v) && OnCrawledPage(site, v, u, d, t)
    ensures Invariant(site, AfterLink(site, v, d, t))
  {
    var w := AfterLink(site, v, d, t);
    LinkWorklist(site, v, d, t);
    LinkDepths(site, v, u, d, t);
    if v.freshRun { LinkCounts(site, v, d, t); }
    LinksHandledKept(site, v, d, t);
    if Regular(v) {
      LinkBreadthFirst(site, v, t);
      LinkRelaxed(site, v, t);
    }
    LinkKeepsRun(site, v, d, t);
    hide AfterLink, Worklist, DepthsSound, LinksHandled, LinksRelaxed, BreadthFirst, ExactCounts;
  }

  lemma LinkKeepsRun(site: Site, v: View, d: Option<nat>, t: UrlId)
    ensures
      var w := AfterLink(site, v, d, t);
      w.freshRun == v.freshRun && (Regular(w) <==> Regular(v)) && w.level == v.level && w.followed == v.followed
  {
    hide LowerDepth, LinkEntry, Capped, CountOf;
  }

  lemma LinksHandledKept(site: Site, v: View, d: Option<nat>, t: UrlId)
    requires LinksHandled(site, v.followed, v.frontierIds, v.counts)
    ensures var w := AfterLink(site, v, d, t); LinksHandled(site, w.followed, w.frontierIds, w.counts)
  {
    LinkHandled(site, v, d, t);
    LinkKeepsRun(site, v, d, t);
    hide AfterLink, Handled;
  }

  /** What following a prefix of a page's links leaves: all handled, and none deeper than one level. */
  ghost predicate PrefixFollowed(site: Site, v: View, w: View, ts: seq<UrlId>) {
    && (w.visited, w.log, w.inactive, w.followed, w.level, w.freshRun, w.rootOnly, w.witnesses, w.checks) ==
       (v.visited, v.log, v.inactive, v.followed, v.level, v.freshRun, v.rootOnly, v.witnesses, v.checks)
    && v.frontierIds <= w.frontierIds
    && DepthsShrink(v.depth, w.depth)
    && (forall t :: t in ts ==> Handled(site, w.frontierIds, w.counts, t))
    && (Regular(v) ==> forall u :: u in v.visited ==> DepthOf(w.depth, u) == DepthOf(v.depth, u))
    && (Regular(v) ==> forall t :: t in ts && t in w.frontierIds ==> DepthOf(w.depth, t) <= v.level + 1)
  }

  lemma {:induction false} LinksKeep(site: Site, v: View, u: UrlId, d: Option<nat>, ts: seq<UrlId>)
    requires Invariant(site, v)
    requires forall t :: t in ts ==> OnCrawledPage(site, v, u, d, t)
    ensures Invariant(site, AfterLinks(site, v, d, ts)) && PrefixFollowed(site, v, AfterLinks(site, v, d, ts), ts)
  {
    if ts != [] {
      var before, t := ts[..|ts| - 1], ts[|ts| - 1];
      LinksKeep(site, v, u, d, before);
      var m := AfterLinks(site, v, d, before);
      assert OnCrawledPage(site, m, u, d, t) by { assert OnCrawledPage(site, v, u, d, t); }
      LinkKeeps(site, m, u, d, t);
      LinkShrinks(site, m, d, t);
      LinkHandled(site, m, d, t);
      if Regular(v) { LinkBreadthFirst(site, m, t); }
      PrefixStep(site, v, m, AfterLink(site, m, d, t), ts);
    }
  }

  lemma PrefixStep(site: Site, v: View, m: View, w: View, ts: seq<UrlId>)
    requires ts != [] && PrefixFollowed(site, v, m, ts[..|ts| - 1])
    requires (w.visited, w.log, w.inactive, w.followed, w.level, w.freshRun, w.rootOnly, w.witnesses, w.checks) ==
             (m.visited, m.log, m.inactive, m.followed, m.level, m.freshRun, m.rootOnly, m.witnesses, m.checks)
    requires m.frontierIds <= w.frontierIds <= m.frontierIds + {ts[|ts| - 1]} && DepthsShrink(m.depth, w.depth)
    requires v.visited <= v.frontierIds
    requires Handled(site, w.frontierIds, w.counts, ts[|ts| - 1])
    requires forall s :: Handled(site, m.frontierIds, m.counts, s) ==> Handled(site, w.frontierIds, w.counts, s)
    requires Regular(v) ==> forall u :: u in m.frontierIds ==> DepthOf(w.depth, u) == DepthOf(m.depth, u)
    requires Regular(v) && ts[|ts| - 1] in w.frontierIds ==> DepthOf(w.depth, ts[|ts| - 1]) <= v.level + 1
    ensures PrefixFollowed(site, v, w, ts)
  {
    forall t | t in ts && t != ts[|ts| - 1] ensures t in ts[..|ts| - 1] { }
  }

  lemma HandledPage(site: Site, followed: set<UrlId>, frontierIds: set<UrlId>, counts: map<Group, nat>, u: UrlId)
    requires LinksHandled(site, followed, frontierIds, counts)
    requires forall t :: t in site.links(u) ==> Handled(site, frontierIds, counts, t)
    ensures LinksHandled(site, followed + {u}, frontierIds, counts)
  {
  }

  lemma RelaxedPage(site: Site, followed: set<UrlId>, frontierIds: set<UrlId>, depth: map<UrlId, nat>, u: UrlId)
    requires LinksRelaxed(site, followed, frontierIds, depth)
    requires forall t :: t in site.links(u) && t in frontierIds ==> DepthOf(depth, t) <= DepthOf(depth, u) + 1
    ensures LinksRelaxed(site, followed + {u}, frontierIds, depth)
  {
  }

  /** Once all its links are handled, a crawled page counts as followed. */
  lemma PageFollowed(site: Site, v: View, u: UrlId, d: Option<nat>)
    requires Invariant(site, v) && u in v.visited
    requires d.Some? ==> ReachedIn(site, v.witnesses, u, d.value)
    requires Regular(v) ==> d == Some(v.level) && DepthOf(v.depth, u) == v.level
    ensures var w := AfterLinks(site, v, d, site.links(u));
            && Invariant(site, w.(followed := w.followed + {u}, checks := w.checks + 1))
            && PrefixFollowed(site, v, w, site.links(u))
  {
    hide Invariant, AfterLinks, ReachedIn;
    assert forall t :: t in site.links(u) ==> OnCrawledPage(site, v, u, d, t);
    LinksKeep(site, v, u, d, site.links(u));
    MarkFollowed(site, AfterLinks(site, v, d, site.links(u)), u);
  }

  lemma MarkFollowed(site: Site, w: View, u: UrlId)
    requires Invariant(site, w) && u in w.visited
    requires forall t :: t in site.links(u) ==> Handled(site, w.frontierIds, w.counts, t)
    requires Regular(w) ==> forall t :: t in site.links(u) && t in w.frontierIds ==>
      DepthOf(w.depth, t) <= DepthOf(w.depth, u) + 1
    ensures Invariant(site, w.(followed := w.followed + {u}, checks := w.checks + 1))
  {
    hide Handled;
    HandledPage(site, w.followed, w.frontierIds, w.counts, u);
    if Regular(w) {
      RelaxedPage(site, w.followed, w.frontierIds, w.depth, u);
    }
  }

  // ---------- what a followed link leaves behind ----------

  ghost predicate Full(site: Site, counts: map<Group, nat>, t: UrlId) {
    site.group(t).Some? && CountOf(counts, site.group(t).value) >= 100
  }

  /**
   The link to t on page u is dealt with: an asset was audited, and a page of the frontier is at most one
   level deeper than the depth u was crawled with; or the variant group of t was full.
   */
  ghost predicate Settled(site: Site, v: View, u: UrlId, t: UrlId) {
    && (!site.html(t) ==> t in v.auditedAssets || Full(site, v.counts, t))
    && (site.html(t) && t in v.frontierIds && u in v.crawledAt ==> t in v.depth && v.depth[t] <= v.crawledAt[u] + 1)
  }

  ghost predicate LinksSettled(site: Site, v: View) {
    && v.crawledAt.Keys <= v.visited
    && forall u, t :: u in v.followed && t in site.links(u) ==> Settled(site, v, u, t)
  }

  lemma CrawlSettles(site: Site, v: View, head: Entry)
    requires LinksSettled(site, v) && v.followed <= v.visited && head.id !in v.visited
    requires AfterCrawl(v, head).depth == v.depth
    ensures
      var c := AfterCrawl(v, head);
      LinksSettled(site, c) && (head.id in c.crawledAt ==> CrawlDepth(v.depth, head) == Some(c.crawledAt[head.id]))
  {
    var c := AfterCrawl(v, head);
    forall u, t | u in c.followed && t in site.links(u) ensures Settled(site, c, u, t) {
      assert Settled(site, v, u, t);
    }
  }

  lemma SettledStays(site: Site, v: View, d: Option<nat>, t: UrlId, u: UrlId, s: UrlId)
    requires Settled(site, v, u, s) && Handled(site, v.frontierIds, v.counts, s)
    ensures Settled(site, AfterLink(site, v, d, t), u, s)
  {
    assert forall g :: CountOf(AfterLink(site, v, d, t).counts, g) >= CountOf(v.counts, g);
  }

  lemma SettledNow(site: Site, v: View, u: UrlId, d: Option<nat>, t: UrlId)
    requires u in v.crawledAt ==> d == Some(v.crawledAt[u])
    ensures Settled(site, AfterLink(site, v, d, t), u, t)
  {
  }

  lemma LinkLeaves(site: Site, v: View, d: Option<nat>, t: UrlId)
    ensures
      var w := AfterLink(site, v, d, t);
      w.followed == v.followed && w.crawledAt == v.crawledAt && w.visited == v.visited
  {
    hide LowerDepth, LinkEntry, Capped, CountOf;
  }

  lemma {:induction false} LinksSettle(site: Site, v: View, u: UrlId, d: Option<nat>, ts: seq<UrlId>)
    requires Invariant(site, v) && LinksSettled(site, v)
    requires forall t :: t in ts ==> OnCrawledPage(site, v, u, d, t)
    requires u in v.crawledAt ==> d == Some(v.crawledAt[u])
    ensures
      var w := AfterLinks(site, v, d, ts);
      && w.followed == v.followed && w.crawledAt == v.crawledAt && w.visited == v.visited && LinksSettled(site, w)
      && forall t :: t in ts ==> Settled(site, w, u, t)
  {
    if ts != [] {
      var before, t := ts[..|ts| - 1], ts[|ts| - 1];
      LinksSettle(site, v, u, d, before);
      LinksKeep(site, v, u, d, before);
      var m := AfterLinks(site, v, d, before);
      LinkLeaves(site, m, d, t);
      hide Settled, OnCrawledPage, Handled, AfterLink, DepthsShrink, Regular;
      forall x, s | x in m.followed && s in site.links(x) ensures Settled(site, AfterLink(site, m, d, t), x, s) {
        assert Handled(site, m.frontierIds, m.counts, s);
        SettledStays(site, m, d, t, x, s);
      }
      forall s | s in before ensures Settled(site, AfterLink(site, m, d, t), u, s) {
        SettledStays(site, m, d, t, u, s);
      }
      SettledNow(site, m, u, d, t);
    }
  }

  lemma PageSettles(site: Site, v: View, u: UrlId, d: Option<nat>)
    requires Invariant(site, v) && LinksSettled(site, v) && u in v.visited
    requires d.Some? ==> ReachedIn(site, v.witnesses, u, d.value)
    requires Regular(v) ==> d == Some(v.level)
    requires u in v.crawledAt ==> d == Some(v.crawledAt[u])
    ensures
      var w := AfterLinks(site, v, d, site.links(u));
      LinksSettled(site, w.(followed := w.followed + {u}, checks := w.checks + 1))
  {
    hide Invariant, ReachedIn;
    assert forall t :: t in site.links(u) ==> OnCrawledPage(site, v, u, d, t);
    LinksSettle(site, v, u, d, site.links(u));
    var w := AfterLinks(site, v, d, site.links(u));
    var marked := w.(followed := w.followed + {u}, checks := w.checks + 1);
    assert forall x, s :: Settled(site, marked, x, s) <==> Settled(site, w, x, s);
    hide Settled;
  }

  // ---------- one iteration, and the whole loop ----------

  ghost function AfterStep(site: Site, v: View, isActive: bool): View
    requires v.pending != []
  {
    var sorted := AfterSort(v);
    var head := sorted.pending[0];
    if !isActive then AfterSkip(AfterPop(sorted), head.id)
    else
      var w := AfterLinks(site, AfterCrawl(AfterPop(sorted), head), CrawlDepth(v.depth, head), site.links(head.id));
      w.(followed := w.followed + {head.id}, checks := w.checks + 1)
  }

  /** At one of the first n checks u was inactive, or active. */
  ghost predicate SeenAs(site: Site, u: UrlId, n: nat, isActive: bool) {
    exists k: nat :: k < n && site.active(u, k) == isActive
  }

  /** u became active again after it had been inactive. */
  ghost predicate Reactivated(site: Site, u: UrlId) {
    exists j: nat, k: nat :: j < k && !site.active(u, j) && site.active(u, k)
  }

  /** Skipped pages were inactive and crawled ones active; one that was both became active again. */
  ghost predicate ActivitySeen(site: Site, inactive: set<UrlId>, followed: set<UrlId>, checks: nat) {
    && (forall u :: u in inactive ==> SeenAs(site, u, checks, false))
    && (forall u :: u in followed ==> SeenAs(site, u, checks, true))
    && (forall u :: u in inactive && u in followed ==> Reactivated(site, u))
  }

  /** What the loop has done since the call's initial view s. */
  ghost predicate Advanced(site: Site, maximum: int, s: View, w: View) {
    && (w.freshRun, w.rootOnly) == (s.freshRun, s.rootOnly)
    && s.frontierIds <= w.frontierIds
    && s.visited + w.followed == w.visited
    && s.log <= w.log && DepthsShrink(s.depth, w.depth)
    && (|w.visited| <= maximum || w.visited == s.visited)
    && ActivitySeen(site, w.inactive, w.followed, w.checks)
  }

  ghost predicate Progress(site: Site, maximum: int, s: View, w: View) {
    Invariant(site, w) && Advanced(site, maximum, s, w) && LinksSettled(site, w)
  }

  lemma SeenLater(site: Site, u: UrlId, n: nat, isActive: bool)
    ensures SeenAs(site, u, n, isActive) ==> SeenAs(site, u, n + 1, isActive)
    ensures site.active(u, n) == isActive ==> SeenAs(site, u, n + 1, isActive)
    ensures SeenAs(site, u, n, false) && site.active(u, n) ==> Reactivated(site, u)
  {
    if SeenAs(site, u, n, false) && site.active(u, n) {
      var k: nat :| k < n && !site.active(u, k);
    }
  }

  lemma SeenNext(site: Site, inactive: set<UrlId>, followed: set<UrlId>, checks: nat, u: UrlId)
    requires ActivitySeen(site, inactive, followed, checks) && u !in followed
    ensures site.active(u, checks) ==> ActivitySeen(site, inactive, followed + {u}, checks + 1)
    ensures !site.active(u, checks) ==> ActivitySeen(site, inactive + {u}, followed, checks + 1)
  {
    hide SeenAs, Reactivated;
    forall x, b ensures SeenAs(site, x, checks, b) ==> SeenAs(site, x, checks + 1, b) {
      SeenLater(site, x, checks, b);
    }
    SeenLater(site, u, checks, true);
    SeenLater(site, u, checks, false);
  }

  lemma AdvancedByPage(site: Site, maximum: int, s: View, v: View, w: View, u: UrlId)
    requires Advanced(site, maximum, s, v) && |v.visited| < maximum
    requires u !in v.visited && site.active(u, v.checks)
    requires w.visited == v.visited + {u} && w.followed == v.followed + {u} && w.log == v.log + [u]
    requires (w.inactive, w.freshRun, w.rootOnly, w.checks) == (v.inactive, v.freshRun, v.rootOnly, v.checks + 1)
    requires v.frontierIds <= w.frontierIds && DepthsShrink(v.depth, w.depth)
    ensures Advanced(site, maximum, s, w)
  {
    hide ActivitySeen;
    SeenNext(site, v.inactive, v.followed, v.checks, u);
  }

  lemma AdvancedBySkip(site: Site, maximum: int, s: View, v: View, w: View, u: UrlId)
    requires Advanced(site, maximum, s, v) && u !in v.visited && !site.active(u, v.checks)
    requires w.inactive == v.inactive + {u} && w.checks == v.checks + 1
    requires (w.visited, w.followed, w.log, w.freshRun, w.rootOnly) ==
      (v.visited, v.followed, v.log, v.freshRun, v.rootOnly)
    requires v.frontierIds <= w.frontierIds && w.depth == v.depth
    ensures Advanced(site, maximum, s, w)
  {
    hide ActivitySeen;
    SeenNext(site, v.inactive, v.followed, v.checks, u);
  }

  lemma SkipSettles(site: Site, v: View)
    requires LinksSettled(site, v) && v.pending != []
    ensures LinksSettled(site, AfterSkip(AfterPop(v), v.pending[0].id))
  {
    var w := AfterSkip(AfterPop(v), v.pending[0].id);
    assert forall u, t :: Settled(site, w, u, t) <==> Settled(site, v, u, t);
  }

  lemma SkipProgress(site: Site, maximum: int, s: View, v: View)
    requires Progress(site, maximum, s, v) && v.pending != []
    requires !site.active(v.pending[0].id, v.checks)
    ensures Progress(site, maximum, s, AfterSkip(AfterPop(v), v.pending[0].id))
  {
    SkipKeeps(site, v);
    SkipSettles(site, v);
    assert v.pending[0].id !in v.visited by { assert v.pending[0] in v.pending && v.pending[0].id in v.pendingIds; }
    hide Invariant, Advanced, LinksSettled;
    AdvancedBySkip(site, maximum, s, v, AfterSkip(AfterPop(v), v.pending[0].id), v.pending[0].id);
  }

  lemma CrawlProgress(site: Site, maximum: int, s: View, v: View)
    requires Progress(site, maximum, s, v) && v.pending != [] && SortedBy(v.pending, QueueLeq)
    requires |v.visited| < maximum && site.active(v.pending[0].id, v.checks)
    ensures
      var head := v.pending[0];
      var w := AfterLinks(site, AfterCrawl(AfterPop(v), head), CrawlDepth(v.depth, head), site.links(head.id));
      && Progress(site, maximum, s, w.(followed := w.followed + {head.id}, checks := w.checks + 1))
      && |w.visited| > |v.visited|
  {
    hide Invariant, Advanced, AfterLinks, CrawlDepth, Regular, SortedBy, Handled, ReachedIn;
    var head := v.pending[0];
    CrawlKeeps(site, v);
    var c, d := AfterCrawl(AfterPop(v), head), CrawlDepth(v.depth, head);
    PageFollowed(site, c, head.id, d);
    CrawlHeadSettles(site, v);
    var w := AfterLinks(site, c, d, site.links(head.id));
    AdvancedByPage(site, maximum, s, v, w.(followed := w.followed + {head.id}, checks := w.checks + 1), head.id);
  }

  lemma PopSettles(site: Site, v: View)
    requires LinksSettled(site, v) && v.pending != []
    ensures LinksSettled(site, AfterPop(v))
  {
    assert forall u, t :: Settled(site, AfterPop(v), u, t) <==> Settled(site, v, u, t);
  }

  lemma FollowedVisited(site: Site, v: View)
    requires Invariant(site, v)
    ensures v.followed <= v.visited
  {
  }

  lemma CrawlHeadSettles(site: Site, v: View)
    requires Invariant(site, v) && LinksSettled(site, v) && v.pending != [] && SortedBy(v.pending, QueueLeq)
    ensures
      var head := v.pending[0];
      var w := AfterLinks(site, AfterCrawl(AfterPop(v), head), CrawlDepth(v.depth, head), site.links(head.id));
      LinksSettled(site, w.(followed := w.followed + {head.id}, checks := w.checks + 1))
  {
    var head := v.pending[0];
    var popped := AfterPop(v);
    PopSettles(site, v);
    FollowedVisited(site, v);
    CrawlKeeps(site, v);
    hide Invariant, LinksSettled, AfterLinks, CrawlDepth, ReachedIn, SortedBy, Settled;
    CrawlSettles(site, popped, head);
    PageSettles(site, AfterCrawl(popped, head), head.id, CrawlDepth(v.depth, head));
  }

  /** Each iteration, at the check numbered by its turn, makes progress and lowers the measure. */
  lemma StepProgress(site: Site, maximum: int, s: View, v: View, isActive: bool)
    requires Progress(site, maximum, s, v) && v.pending != [] && |v.visited| < maximum
    requires isActive == site.active(AfterSort(v).pending[0].id, v.checks)
    ensures var w := AfterStep(site, v, isActive);
            && Progress(site, maximum, s, w) && w.checks == v.checks + 1
            && (if isActive then |w.visited| > |v.visited| else w.visited == v.visited && |w.pending| < |v.pending|)
  {
    hide Progress, AfterLinks, SortedBy, CrawlDepth;
    SortProgress(site, maximum, s, v);
    if isActive {
      CrawlProgress(site, maximum, s, AfterSort(v));
      StepTicks(site, v);
    } else {
      SkipProgress(site, maximum, s, AfterSort(v));
    }
  }

  lemma SortProgress(site: Site, maximum: int, s: View, v: View)
    requires Progress(site, maximum, s, v)
    ensures Progress(site, maximum, s, AfterSort(v)) && SortedBy(AfterSort(v).pending, QueueLeq)
  {
    hide Invariant, SortedBy;
    SortKeeps(site, v);
    assert forall u, t :: Settled(site, AfterSort(v), u, t) <==> Settled(site, v, u, t);
  }

  lemma StepTicks(site: Site, v: View)
    requires v.pending != []
    ensures AfterStep(site, v, true).checks == v.checks + 1
  {
    LinksTick(site, AfterCrawl(AfterPop(AfterSort(v)), AfterSort(v).pending[0]),
              CrawlDepth(v.depth, AfterSort(v).pending[0]), site.links(AfterSort(v).pending[0].id));
  }

  lemma {:induction false} LinksTick(site: Site, v: View, d: Option<nat>, ts: seq<UrlId>)
    ensures AfterLinks(site, v, d, ts).checks == v.checks
  {
    if ts != [] { LinksTick(site, v, d, ts[..|ts| - 1]); }
  }

  lemma InitialProgress(site: Site, maximum: int, s: View)
    requires Invariant(site, s) && s.followed == s.inactive == {} && s.checks == 0 && s.crawledAt == map[]
    ensures Progress(site, maximum, s, s)
  {
  }

  lemma CallStarts(site: Site, maximum: int, known: seq<UrlId>, resumed: bool,
                   stored: map<UrlId, nat>, snapshots: set<UrlId>, log: seq<UrlId>, witnesses: set<UrlId>)
    requires Distinct(known)
    requires if resumed then Stored(site, stored, snapshots, log, witnesses) else snapshots == {}
    ensures
      var s := InitialView(site, known, resumed, stored, snapshots, log, witnesses);
      Progress(site, maximum, s, s) && s.checks == 0
  {
    hide Invariant, Progress, Stored;
    InitialInvariant(site, known, resumed, stored, snapshots, log, witnesses);
    InitialProgress(site, maximum, InitialView(site, known, resumed, stored, snapshots, log, witnesses));
  }

  lemma StoredAfter(site: Site, maximum: int, s: View, v: View)
    requires Progress(site, maximum, s, v)
    ensures Stored(site, v.depth, v.snapshots, v.log, v.witnesses)
  {
  }

  lemma SeedsInFrontier(site: Site, known: seq<UrlId>, resumed: bool,
                        stored: map<UrlId, nat>, snapshots: set<UrlId>, log: seq<UrlId>, witnesses: set<UrlId>)
    requires Distinct(known)
    ensures
      var v := InitialView(site, known, resumed, stored, snapshots, log, witnesses);
      Elements(Seeds(site, known)) <= v.frontierIds
  {
    var v := InitialView(site, known, resumed, stored, snapshots, log, witnesses);
    InitialQueue(site, known, v.depth, v.visited);
  }

  // ---------- what a finished call guarantees ----------

  /** Every seed, and every HTML target of a page crawled in this call, has been dealt with. */
  ghost predicate AllDealtWith(site: Site, v: View, seeds: seq<UrlId>) {
    && (forall u :: u in seeds ==> u in v.visited || u in v.inactive)
    && (forall u, t :: u in v.followed && t in site.links(u) && site.html(t) ==>
          t in v.visited || t in v.inactive || (t !in v.frontierIds && Full(site, v.counts, t)))
    && (forall u, t :: u in v.followed && t in site.links(u) && !site.html(t) ==>
          t in v.auditedAssets || Full(site, v.counts, t))
  }

  lemma EmptyQueueComplete(site: Site, maximum: int, s: View, v: View, seeds: seq<UrlId>)
    requires Progress(site, maximum, s, v) && v.pending == [] && Elements(seeds) <= s.frontierIds
    ensures AllDealtWith(site, v, seeds)
  {
    assert v.pendingIds == {};
    assert v.frontierIds == v.visited + v.inactive;
    forall u, t | u in v.followed && t in site.links(u) && site.html(t)
      ensures t in v.visited || t in v.inactive || (t !in v.frontierIds && Full(site, v.counts, t))
    {
      assert Handled(site, v.frontierIds, v.counts, t);
    }
    forall u | u in seeds ensures u in v.visited || u in v.inactive {
      assert u in Elements(seeds);
    }
    forall u, t | u in v.followed && t in site.links(u) && !site.html(t)
      ensures t in v.auditedAssets || Full(site, v.counts, t)
    {
      assert Settled(site, v, u, t);
    }
  }

  /** All queued depths are known and differ by at most one. */
  ghost predicate AdjacentLevels(pending: seq<Entry>) {
    forall e, f :: e in pending && f in pending ==>
      e.depth.Some? && f.depth.Some? && e.depth.value <= f.depth.value + 1
  }

  lemma RelaxedEverywhere(site: Site, v: View)
    requires Invariant(site, v) && Regular(v) && v.followed == v.visited
    ensures Relaxed(site, v.visited, v.depth) && Witnessed(site, v.visited, v.depth)
    ensures site.root in v.depth && v.depth[site.root] == 0
    ensures AdjacentLevels(v.pending)
  {
    assert v.visited <= v.frontierIds == v.depth.Keys;
    forall u, t | u in v.visited && t in v.visited && t in site.links(u)
      ensures v.depth[t] <= v.depth[u] + 1
    {
      assert u in v.followed && t in v.frontierIds;
    }
  }

  /**
   A fresh crawl whose only seed is the root, at any point of its run: every crawled page has the
   length of a shortest link path through crawled pages, and the queue spans two adjacent levels.
   A page that was skipped as inactive and crawled later breaks it; module StaleDepths has an example.
   */
  lemma FreshRootCrawl(site: Site, maximum: int, known: seq<UrlId>, stored: map<UrlId, nat>, log: seq<UrlId>, w: View)
    requires Distinct(known) && SeededByRoot(site, known, false)
    requires Progress(site, maximum, InitialView(site, known, false, stored, {}, log, {}), w)
    requires w.inactive !! w.visited
    ensures forall u :: u in w.visited ==> u in w.depth && ShortestDepth(site, w.visited, u, w.depth[u])
    ensures AdjacentLevels(w.pending)
  {
    hide InitialView, Progress, Invariant, Relaxed, Witnessed, ShortestDepth, AdjacentLevels, SeededByRoot;
    FreshRootStart(site, known, stored, log);
    StillRegular(site, maximum, InitialView(site, known, false, stored, {}, log, {}), w);
    RelaxedEverywhere(site, w);
    RelaxedIsShortest(site, w.visited, w.depth);
  }

  /** All crawled pages have the length of a shortest link path through crawled pages. */
  ghost predicate ExactDepths(site: Site, v: View) {
    forall u :: u in v.visited ==> u in v.depth && ShortestDepth(site, v.visited, u, v.depth[u])
  }

  /**
   At any point of a fresh crawl, whatever its seeds and however activity changed, the depths are exact
   if and only if every crawled page has one and no link between crawled pages drops more than one level.
   */
  lemma FreshExactIff(site: Site, maximum: int, known: seq<UrlId>, stored: map<UrlId, nat>, log: seq<UrlId>, w: View)
    requires Distinct(known)
    requires Progress(site, maximum, InitialView(site, known, false, stored, {}, log, {}), w)
    ensures ExactDepths(site, w) <==> Relaxed(site, w.visited, w.depth)
  {
    hide InitialView, Invariant, Relaxed, Witnessed, ShortestDepth;
    if ExactDepths(site, w) { ShortestIsRelaxed(site, w.visited, w.depth); }
    if Relaxed(site, w.visited, w.depth) {
      RootAtZero(site, maximum, known, stored, log, w);
      RelaxedIsShortest(site, w.visited, w.depth);
    }
  }

  lemma RootAtZero(site: Site, maximum: int, known: seq<UrlId>, stored: map<UrlId, nat>, log: seq<UrlId>, w: View)
    requires Distinct(known)
    requires Progress(site, maximum, InitialView(site, known, false, stored, {}, log, {}), w)
    ensures site.root in w.depth && w.depth[site.root] == 0 && Witnessed(site, w.visited, w.depth)
  {
    assert InitialView(site, known, false, stored, {}, log, {}).depth == map[site.root := 0];
    assert DepthsSound(site, w);
  }

  lemma FreshRootStart(site: Site, known: seq<UrlId>, stored: map<UrlId, nat>, log: seq<UrlId>)
    requires Distinct(known) && SeededByRoot(site, known, false)
    ensures var s := InitialView(site, known, false, stored, {}, log, {}); s.visited == {} && s.rootOnly
  {
  }

  lemma StillRegular(site: Site, maximum: int, s: View, w: View)
    requires Progress(site, maximum, s, w) && s.visited == {} && s.rootOnly && w.inactive !! w.visited
    ensures Invariant(site, w) && Regular(w) && w.followed == w.visited
  {
    hide Invariant;
  }

  /** A page that was skipped and crawled later was reactivated in between; without that the proviso holds. */
  lemma CrawledLaterIsReactivated(site: Site, maximum: int, s: View, w: View, u: UrlId)
    requires Progress(site, maximum, s, w) && s.visited == {} && u in w.inactive && u in w.visited
    ensures Reactivated(site, u)
  {
    assert u in w.followed;
  }

  /** So depths are exact throughout when no page is reactivated; pages may be deactivated at any time. */
  lemma WithoutReactivation(site: Site, maximum: int, known: seq<UrlId>, stored: map<UrlId, nat>, log: seq<UrlId>,
                            w: View)
    requires Distinct(known) && SeededByRoot(site, known, false)
    requires Progress(site, maximum, InitialView(site, known, false, stored, {}, log, {}), w)
    requires forall u :: !Reactivated(site, u)
    ensures ExactDepths(site, w) && AdjacentLevels(w.pending)
  {
    hide InitialView, Progress, ShortestDepth, AdjacentLevels, SeededByRoot, Reactivated;
    var s := InitialView(site, known, false, stored, {}, log, {});
    FreshRootStart(site, known, stored, log);
    forall u | u in w.inactive ensures u !in w.visited {
      if u in w.visited { CrawledLaterIsReactivated(site, maximum, s, w, u); }
    }
    FreshRootCrawl(site, maximum, known, stored, log, w);
  }

  lemma DueAreDealtWith(site: Site, known: seq<UrlId>, v: View)
    requires Distinct(known) && AllDealtWith(site, v, Seeds(site, known))
    ensures forall i :: 0 <= i < |known| && Due(site, known, i) ==> known[i] in v.visited + v.inactive
  {
    hide Due, Seeds;
    forall i | 0 <= i < |known| && Due(site, known, i) ensures known[i] in v.visited + v.inactive {
      SeedIffDue(site, known, i);
    }
  }

  /** Entry i has the least known depth, or no entry has one; of its equals it was queued first. */
  ghost predicate FirstInLine(pending: seq<Entry>, i: nat)
    requires i < |pending|
  {
    && (pending[i].depth.None? ==> forall k :: 0 <= k < |pending| ==> pending[k].depth.None?)
    && (pending[i].depth.Some? ==>
        forall k :: 0 <= k < |pending| && pending[k].depth.Some? ==> pending[i].depth.value <= pending[k].depth.value)
    && forall k :: 0 <= k < i ==> pending[k].depth != pending[i].depth
  }

  lemma HeadIsFirstInLine(pending: seq<Entry>)
    requires pending != []
    ensures exists i :: 0 <= i < |pending| && Sort(pending, QueueLeq)[0] == pending[i] && FirstInLine(pending, i)
  {
    assert TotalPreorder(QueueLeq);
    var i := SortHead(pending, QueueLeq);
    forall k | 0 <= k < |pending| ensures QueueLeq(pending[i], pending[k]) { }
  }

  class SiteCrawl {
    const site: Site
    const maximum: int

    // Rows that survive a call: urls.crawl_depth (absent when NULL) and the run's snapshots.
    var depth: map<UrlId, nat>
    var snapshots: set<UrlId>

    // Working state of one call.
    var pending: seq<Entry>
    var pendingIds: set<UrlId>
    var visited: set<UrlId>
    var frontierIds: set<UrlId>
    var counts: map<Group, nat>
    var auditedAssets: set<UrlId>

    // Time, as the number of checks so far in the call: rows and requests are read at a check.
    var checks: nat

    // History, see View.
    ghost var log: seq<UrlId>
    ghost var followed: set<UrlId>
    ghost var inactive: set<UrlId>
    ghost var freshRun: bool
    ghost var rootOnly: bool
    ghost var level: nat
    ghost var witnesses: set<UrlId>
    ghost var crawledAt: map<UrlId, nat>

    constructor (site: Site, maximum: int)
      ensures this.site == site && this.maximum == maximum
      ensures depth == map[] && snapshots == {} && log == []
    {
      this.site, this.maximum := site, maximum;
      depth, snapshots, log := map[], {}, [];
    }

    ghost function State(): View
      reads this
    {
      View(depth, snapshots, pending, pendingIds, visited, frontierIds, counts, auditedAssets,
           log, followed, inactive, freshRun, rootOnly, level, witnesses, checks, crawledAt)
    }

    /** A fresh run clears all depths and puts the root at zero; snapshots say what was crawled. */
    method LoadProgress(resumed: bool)
      modifies this`depth, this`log, this`visited, this`auditedAssets
      ensures depth == (if resumed then old(depth) else map[site.root := 0])
      ensures log == (if resumed then old(log) else [])
      ensures visited == HtmlSnapshots(site, snapshots) && auditedAssets == snapshots - visited
    {
      if !resumed {
        depth, log := map[site.root := 0], [];
      }
      visited := CrawledPages(site, snapshots);
      auditedAssets := snapshots - visited;
    }

    /** The frontier a call starts from. */
    method LoadFrontier(known: seq<UrlId>)
      modifies this`pending, this`pendingIds, this`frontierIds, this`counts
      ensures pending == QueueOf(depth, visited, Seeds(site, known)) && pendingIds == Ids(pending)
      ensures frontierIds == visited + pendingIds && counts == GroupCounts(site.group, Seeds(site, known))
    {
      pending, pendingIds, counts := PrepareQueue(site, known, visited, depth);
      frontierIds := visited + pendingIds;
    }

    method Start(known: seq<UrlId>, resumed: bool)
      requires Distinct(known)
      modifies this
      ensures State() == InitialView(site, known, resumed, old(depth), old(snapshots), old(log), old(witnesses))
    {
      hide QueueOf, Ids, Seeds, GroupCounts, SeededByRoot, HtmlSnapshots;
      LoadProgress(resumed);
      LoadFrontier(known);
      ResetHistory(known, resumed);
    }

    method ResetHistory(known: seq<UrlId>, resumed: bool)
      modifies this`followed, this`inactive, this`level, this`checks, this`witnesses, this`freshRun, this`rootOnly
      modifies this`crawledAt
      ensures followed == {} && inactive == {} && level == 0 && checks == 0 && crawledAt == map[]
      ensures witnesses == if resumed then old(witnesses) else visited
      ensures freshRun == !resumed && rootOnly == SeededByRoot(site, known, resumed)
    {
      followed, inactive, level, checks, crawledAt := {}, {}, 0, 0, map[];
      witnesses := if resumed then witnesses else visited;
      freshRun, rootOnly := !resumed, SeededByRoot(site, known, resumed);
    }

    /** Sorts the queue and takes its head: of the least known depth, or of none if none is known. */
    method PopNext() returns (head: Entry)
      requires pending != []
      modifies this
      ensures exists i :: 0 <= i < |old(pending)| && head == old(pending)[i] && FirstInLine(old(pending), i)
      ensures AfterSort(old(State())).pending != []
      ensures head == AfterSort(old(State())).pending[0]
      ensures State() == AfterPop(AfterSort(old(State())))
    {
      HeadIsFirstInLine(pending);
      pending := Sort(pending, QueueLeq);
      head := pending[0];
      pending := pending[1..];
      pendingIds := pendingIds - {head.id};
    }

    /** The popped page's depth is the smaller of queued and stored, and is stored; an unknown one is not. */
    method SettleDepth(head: Entry) returns (d: Option<nat>)
      modifies this`depth, this`level, this`crawledAt
      ensures d == CrawlDepth(old(depth), head)
      ensures depth == if d.Some? then old(depth)[head.id := d.value] else old(depth)
      ensures level == if d.Some? then d.value else old(level)
      ensures crawledAt == if d.Some? then old(crawledAt)[head.id := d.value] else old(crawledAt)
    {
      d := head.depth;
      if d.Some? {
        if head.id in depth && depth[head.id] < d.value {
          d := Some(depth[head.id]);
        }
        depth := depth[head.id := d.value];
        level, crawledAt := d.value, crawledAt[head.id := d.value];
      }
    }

    /** Crawls a popped page; its snapshot is stored whatever the fetch returns. */
    method CrawlPage(head: Entry) returns (d: Option<nat>)
      modifies this
      ensures State() == AfterCrawl(old(State()), head)
      ensures d == CrawlDepth(old(depth), head)
    {
      d := SettleDepth(head);
      visited := visited + {head.id};
      witnesses := witnesses + {head.id};
      snapshots := snapshots + {head.id};
      log := log + [head.id];
    }

    /** A link to an HTML page that is not capped: lower its depth, admit it, queue it. */
    method FollowPage(d: Option<nat>, t: UrlId)
      modifies this`depth, this`pending, this`pendingIds, this`frontierIds, this`counts
      ensures depth == LowerDepth(old(depth), d, t)
      ensures frontierIds == old(frontierIds) + {t}
      ensures var g := site.group(t);
              counts == if g.Some? && t !in old(frontierIds)
                        then old(counts)[g.value := CountOf(old(counts), g.value) + 1] else old(counts)
      ensures pending == if t !in visited && t !in old(pendingIds)
                         then old(pending) + [LinkEntry(d, t)] else old(pending)
      ensures pendingIds == if t !in visited && t !in old(pendingIds) then old(pendingIds) + {t} else old(pendingIds)
    {
      var g := site.group(t);
      var entry := LinkEntry(d, t);
      if entry.depth.Some? && (t !in depth || entry.depth.value < depth[t]) {
        depth := depth[t := entry.depth.value];
      }
      if g.Some? && t !in frontierIds {
        counts := counts[g.value := CountOf(counts, g.value) + 1];
      }
      frontierIds := frontierIds + {t};
      if t !in visited && t !in pendingIds {
        pending := pending + [entry];
        pendingIds := pendingIds + {t};
      }
    }

    method FollowLink(d: Option<nat>, t: UrlId)
      modifies this
      ensures State() == AfterLink(site, old(State()), d, t)
    {
      hide LowerDepth, LinkEntry, CountOf, Capped;
      if Capped(site, frontierIds, counts, t) {
        return;
      }
      if !site.html(t) {
        auditedAssets := auditedAssets + {t};
        snapshots := snapshots + {t};
        return;
      }
      FollowPage(d, t);
    }

    method FollowLinks(u: UrlId, d: Option<nat>)
      modifies this
      ensures State() == AfterLinks(site, old(State()), d, site.links(u))
    {
      var ts := site.links(u);
      for i := 0 to |ts|
        invariant State() == AfterLinks(site, old(State()), d, ts[..i])
      {
        assert ts[..i + 1][..i] == ts[..i];
        FollowLink(d, ts[i]);
      }
      assert ts[..|ts|] == ts;
    }

    /** One iteration: pop the head, skip it when inactive, else crawl it and follow its links. */
    method Step()
      requires pending != []
      modifies this
      ensures State() == AfterStep(site, old(State()), site.active(AfterSort(old(State())).pending[0].id, old(checks)))
    {
      var head := PopNext();
      if !site.active(head.id, checks) {
        inactive := inactive + {head.id};
        checks := checks + 1;
        return;
      }
      var d := CrawlPage(head);
      FollowLinks(head.id, d);
      followed := followed + {head.id};
      checks := checks + 1;
    }

    /**
     The crawl loop. `control` says at which checks a pause or cancel request is seen. The source
     also skips popped pages that are already visited; the queue never holds one.
     */
    method Crawl(known: seq<UrlId>, resumed: bool, control: nat -> bool) returns (outcome: Outcome)
      requires Distinct(known)
      requires if resumed then Stored(site, depth, snapshots, log, witnesses) else snapshots == {}
      modifies this
      ensures Stored(site, depth, snapshots, log, witnesses)
      ensures
        var s := InitialView(site, known, resumed, old(depth), old(snapshots), old(log), old(witnesses));
        Progress(site, maximum, s, State())
      ensures outcome == Complete ==> AllDealtWith(site, State(), Seeds(site, known))
      ensures outcome == Complete ==>
                forall i :: 0 <= i < |known| && Due(site, known, i) ==> known[i] in visited + inactive
      ensures outcome == Limited ==> pending != [] && |visited| >= maximum
      ensures outcome == Interrupted ==> control(checks)
      ensures forall k: nat :: k < checks ==> !control(k)
    {
      hide Invariant, Progress, AfterStep, InitialView, Stored, AllDealtWith, Due, Seeds, Sort;
      Start(known, resumed);
      ghost var s := State();
      CallStarts(site, maximum, known, resumed, old(depth), old(snapshots), old(log), old(witnesses));
      while pending != [] && |visited| < maximum
        invariant Progress(site, maximum, s, State())
        invariant forall k: nat :: k < checks ==> !control(k)
        decreases maximum - |visited|, |pending|
      {
        if control(checks) {
          StoredAfter(site, maximum, s, State());
          return Interrupted;
        }
        ghost var v := State();
        StepProgress(site, maximum, s, v, site.active(AfterSort(v).pending[0].id, checks));
        Step();
      }
      StoredAfter(site, maximum, s, State());
      if pending != [] {
        return Limited;
      }
      SeedsInFrontier(site, known, resumed, old(depth), old(snapshots), old(log), old(witnesses));
      EmptyQueueComplete(site, maximum, s, State(), Seeds(site, known));
      DueAreDealtWith(site, known, State());
      return Complete;
    }
  }

  method CrawledPages(site: Site, snapshots: set<UrlId>) returns (pages: set<UrlId>)
    ensures pages == HtmlSnapshots(site, snapshots)
  {
    pages := set u | u in snapshots && site.html(u);
  }

  /** Limits the eligible pages and queues those not crawled yet, each with its stored depth. */
  method PrepareQueue(site: Site, known: seq<UrlId>, visited: set<UrlId>, depth: map<UrlId, nat>)
    returns (pending: seq<Entry>, pendingIds: set<UrlId>, counts: map<Group, nat>)
    ensures pending == QueueOf(depth, visited, Seeds(site, known)) && pendingIds == Ids(pending)
    ensures counts == GroupCounts(site.group, Seeds(site, known))
  {
    var seeds := LimitQueryVariants(site.group, Eligible(site, known), None);
    counts := CountGroups(site.group, seeds);
    pending, pendingIds := QueueSeeds(seeds, visited, depth);
  }

  method QueueSeeds(seeds: seq<UrlId>, visited: set<UrlId>, depth: map<UrlId, nat>)
    returns (pending: seq<Entry>, pendingIds: set<UrlId>)
    ensures pending == QueueOf(depth, visited, seeds) && pendingIds == Ids(pending)
  {
    pending := [];
    for i := 0 to |seeds|
      invariant pending == QueueOf(depth, visited, seeds[..i])
    {
      assert seeds[..i + 1][..i] == seeds[..i];
      var u := seeds[i];
      if u !in visited {
        pending := pending + [Entry(u, if u in depth then Some(depth[u]) else None)];
      } else {
        assert pending + [] == pending;
      }
    }
    assert seeds[..|seeds|] == seeds;
    pendingIds := set e | e in pending :: e.id;
  }

  method CountGroups(group: UrlId -> Option<Group>, urls: seq<UrlId>) returns (counts: map<Group, nat>)
    ensures counts == GroupCounts(group, urls)
  {
    counts := map[];
    for i := 0 to |urls|
      invariant counts == GroupCounts(group, urls[..i])
    {
      assert urls[..i + 1][..i] == urls[..i];
      var g := group(urls[i]);
      if g.Some? {
        counts := counts[g.value := CountOf(counts, g.value) + 1];
      }
    }
    assert urls[..|urls|] == urls;
  }
}
