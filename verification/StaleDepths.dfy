/**
 A crawl whose stored depths are not shortest: a page that was inactive when it was popped becomes
 active again, is linked once more and is then crawled out of turn.
 */
module StaleDepths {
  import opened Basics
  import opened Sorting
  import opened CrawlFrontier
  import opened SiteCrawls

  function Links(u: UrlId): seq<UrlId> {
    match u
    case 0 => [1, 2]
    case 1 => [4]
    case 2 => [3]
    case 3 => [4, 1]
    case 4 => [5]
    case _ => []
  }

  /** Page 1 is inactive at the second check only. */
  function Example(): Site {
    Site(0, Links, (u: UrlId) => true, (u: UrlId) => false, (u: UrlId) => Option<Group>.None,
         (u: UrlId, k: nat) => u != 1 || k != 1)
  }

  function Queued(u: UrlId, d: nat): Entry { Entry(u, Some(d)) }

  /** A view of the example; pages 1 to 5 have the given depths, or none. */
  ghost function At(depth: map<UrlId, nat>, pending: seq<Entry>, queued: set<UrlId>, visited: set<UrlId>,
                    log: seq<UrlId>,
                    inactive: set<UrlId>, level: nat, checks: nat,
                    crawledAt: map<UrlId, nat>): View {
    View(depth, visited, pending, queued, visited, visited + queued + inactive, map[], {}, log, visited, inactive,
         true, true, level, visited, checks, crawledAt)
  }

  ghost function Crawled(v: View, head: Entry, rest: seq<Entry>, d: nat): View {
    v.(pending := rest, pendingIds := v.pendingIds - {head.id}, depth := v.depth[head.id := d],
       visited := v.visited + {head.id}, witnesses := v.witnesses + {head.id}, crawledAt := v.crawledAt[head.id := d],
       snapshots := v.snapshots + {head.id}, log := v.log + [head.id], level := d)
  }

  ghost function Found(v: View, d: nat, t: UrlId): View {
    v.(depth := v.depth[t := d + 1], frontierIds := v.frontierIds + {t}, pending := v.pending + [Queued(t, d + 1)],
       pendingIds := v.pendingIds + {t})
  }

  ghost function Done(v: View, u: UrlId): View { v.(followed := v.followed + {u}, checks := v.checks + 1) }

  lemma SortedAlready(v: View)
    requires SortedBy(v.pending, QueueLeq)
    ensures AfterSort(v) == v
  {
    assert TotalPreorder(QueueLeq);
    SortOfSorted(v.pending, QueueLeq);
  }

  /** A step on a sorted queue: crawl the head, then follow its links. */
  lemma CrawlHead(v: View, head: Entry, rest: seq<Entry>, d: nat)
    requires SortedBy(v.pending, QueueLeq) && v.pending == [head] + rest && CrawlDepth(v.depth, head) == Some(d)
    ensures AfterStep(Example(), v, true) ==
      Done(AfterLinks(Example(), Crawled(v, head, rest, d), Some(d), Links(head.id)), head.id)
  {
    SortedAlready(v);
    assert v.pending[1..] == rest;
  }

  lemma SkipHead(v: View, head: Entry, rest: seq<Entry>)
    requires SortedBy(v.pending, QueueLeq) && v.pending == [head] + rest
    ensures AfterStep(Example(), v, false) == v.(pending := rest, pendingIds := v.pendingIds - {head.id},
                                                 inactive := v.inactive + {head.id},
                                                 checks := v.checks + 1)
  {
    SortedAlready(v);
    assert v.pending[1..] == rest;
  }

  lemma NewPage(v: View, d: nat, t: UrlId)
    requires t !in v.depth || d + 1 < v.depth[t]
    requires t !in v.visited && t !in v.pendingIds
    ensures AfterLink(Example(), v, Some(d), t) == Found(v, d, t)
  {
  }

  /** A page that is not queued although its stored depth is smaller is queued again. */
  lemma Requeued(v: View, d: nat, t: UrlId)
    requires t in v.depth && v.depth[t] <= d + 1 && t in v.frontierIds && t !in v.visited && t !in v.pendingIds
    ensures AfterLink(Example(), v, Some(d), t) ==
      v.(pending := v.pending + [Queued(t, d + 1)], pendingIds := v.pendingIds + {t})
  {
    assert v.frontierIds + {t} == v.frontierIds;
  }

  lemma LoweredOnly(v: View, d: nat, t: UrlId)
    requires t in v.depth && d + 1 < v.depth[t] && t in v.visited && t in v.frontierIds
    ensures AfterLink(Example(), v, Some(d), t) == v.(depth := v.depth[t := d + 1])
  {
    assert v.frontierIds + {t} == v.frontierIds;
  }

  lemma NoLinks(v: View, d: Option<nat>)
    ensures AfterLinks(Example(), v, d, []) == v
  {
  }

  lemma OneLink(v: View, d: Option<nat>, t: UrlId)
    ensures AfterLinks(Example(), v, d, [t]) == AfterLink(Example(), v, d, t)
  {
    assert [t][..0] == [];
  }

  lemma TwoLinks(v: View, d: Option<nat>, s: UrlId, t: UrlId)
    ensures AfterLinks(Example(), v, d, [s, t]) == AfterLink(Example(), AfterLink(Example(), v, d, s), d, t)
  {
    assert [s, t][..1] == [s];
    OneLink(v, d, s);
  }

  ghost function V0(): View {
    At(map[0 := 0], [Queued(0, 0)], {0}, {}, [], {}, 0, 0, map[])
  }

  ghost function V1(): View {
    At(map[0 := 0, 1 := 1, 2 := 1], [Queued(1, 1), Queued(2, 1)], {1, 2}, {0}, [0], {}, 0, 1, map[0 := 0])
  }

  ghost function V2(): View {
    At(map[0 := 0, 1 := 1, 2 := 1], [Queued(2, 1)], {2}, {0}, [0], {1}, 0, 2, map[0 := 0])
  }

  ghost function V3(): View {
    At(map[0 := 0, 1 := 1, 2 := 1, 3 := 2], [Queued(3, 2)], {3}, {0, 2}, [0, 2], {1}, 1, 3, map[0 := 0, 2 := 1])
  }

  ghost function V4(): View {
    At(map[0 := 0, 1 := 1, 2 := 1, 3 := 2, 4 := 3], [Queued(4, 3), Queued(1, 3)], {1, 4},
       {0, 2, 3}, [0, 2, 3], {1}, 2, 4, map[0 := 0, 2 := 1, 3 := 2])
  }

  ghost function V5(): View {
    At(map[0 := 0, 1 := 1, 2 := 1, 3 := 2, 4 := 3, 5 := 4], [Queued(1, 3), Queued(5, 4)], {1, 5},
       {0, 2, 3, 4}, [0, 2, 3, 4], {1}, 3, 5, map[0 := 0, 2 := 1, 3 := 2, 4 := 3])
  }

  ghost function V6(): View {
    At(map[0 := 0, 1 := 1, 2 := 1, 3 := 2, 4 := 2, 5 := 4], [Queued(5, 4)], {5},
       {0, 1, 2, 3, 4}, [0, 2, 3, 4, 1], {1}, 1, 6, map[0 := 0, 2 := 1, 3 := 2, 4 := 3, 1 := 1])
  }

  ghost function V7(): View {
    At(map[0 := 0, 1 := 1, 2 := 1, 3 := 2, 4 := 2, 5 := 4], [], {},
       {0, 1, 2, 3, 4, 5}, [0, 2, 3, 4, 1, 5], {1}, 4, 7, map[0 := 0, 2 := 1, 3 := 2, 4 := 3, 1 := 1, 5 := 4])
  }

  lemma Step1()
    ensures AfterStep(Example(), V0(), true) == V1()
  {
    hide AfterLinks, AfterLink, AfterStep, V1, Found;
    var head := Queued(0, 0);
    CrawlHead(V0(), head, [], 0);
    var c := Crawled(V0(), head, [], 0);
    TwoLinks(c, Some(0), 1, 2);
    NewPage(c, 0, 1);
    Match1();
    NewPage(Found(c, 0, 1), 0, 2);
  }

  lemma Match1()
    ensures var c := Crawled(V0(), Queued(0, 0), [], 0);
            Done(Found(Found(c, 0, 1), 0, 2), 0) == V1() && 2 !in Found(c, 0, 1).pendingIds &&
              2 !in Found(c, 0, 1).depth && 2 !in Found(c, 0, 1).visited
  {
  }

  lemma Step2()
    ensures AfterStep(Example(), V1(), false) == V2()
  {
    SkipHead(V1(), Queued(1, 1), [Queued(2, 1)]);
  }

  lemma Step3()
    ensures AfterStep(Example(), V2(), true) == V3()
  {
    hide AfterLinks, AfterLink, AfterStep, V3, Found;
    CrawlHead(V2(), Queued(2, 1), [], 1);
    var c := Crawled(V2(), Queued(2, 1), [], 1);
    OneLink(c, Some(1), 3);
    NewPage(c, 1, 3);
    Match3();
  }

  lemma Match3()
    ensures Done(Found(Crawled(V2(), Queued(2, 1), [], 1), 1, 3), 2) == V3()
  {
  }

  ghost function Again(v: View, t: UrlId, d: nat): View {
    v.(pending := v.pending + [Queued(t, d + 1)], pendingIds := v.pendingIds + {t})
  }

  lemma Step4()
    ensures AfterStep(Example(), V3(), true) == V4()
  {
    hide AfterLinks, AfterLink, AfterStep, V4, Found;
    CrawlHead(V3(), Queued(3, 2), [], 2);
    var c := Crawled(V3(), Queued(3, 2), [], 2);
    TwoLinks(c, Some(2), 4, 1);
    NewPage(c, 2, 4);
    Match4();
    Requeued(Found(c, 2, 4), 2, 1);
  }

  lemma Match4()
    ensures
      var c := Crawled(V3(), Queued(3, 2), [], 2);
      var f := Found(c, 2, 4);
      Done(Again(f, 1, 2), 3) == V4() && 1 in f.depth && f.depth[1] <= 3 && 1 in f.frontierIds && 1 !in f.visited &&
        1 !in f.pendingIds
  {
  }

  lemma Step5()
    ensures AfterStep(Example(), V4(), true) == V5()
  {
    hide AfterLinks, AfterLink, AfterStep, V5, Found;
    CrawlHead(V4(), Queued(4, 3), [Queued(1, 3)], 3);
    var c := Crawled(V4(), Queued(4, 3), [Queued(1, 3)], 3);
    OneLink(c, Some(3), 5);
    NewPage(c, 3, 5);
    Match5();
  }

  lemma Match5()
    ensures Done(Found(Crawled(V4(), Queued(4, 3), [Queued(1, 3)], 3), 3, 5), 4) == V5()
  {
  }

  /** Page 1 is crawled with its stored depth, and lowers page 4, which was crawled already. */
  lemma Step6()
    ensures AfterStep(Example(), V5(), true) == V6()
  {
    hide AfterLinks, AfterLink, AfterStep, V6;
    CrawlHead(V5(), Queued(1, 3), [Queued(5, 4)], 1);
    var c := Crawled(V5(), Queued(1, 3), [Queued(5, 4)], 1);
    OneLink(c, Some(1), 4);
    LoweredOnly(c, 1, 4);
    Match6();
  }

  lemma Match6()
    ensures var c := Crawled(V5(), Queued(1, 3), [Queued(5, 4)], 1); Done(c.(depth := c.depth[4 := 2]), 1) == V6()
  {
  }

  lemma Step7()
    ensures AfterStep(Example(), V6(), true) == V7()
  {
    hide AfterLinks, AfterLink, AfterStep, V7;
    CrawlHead(V6(), Queued(5, 4), [], 4);
    NoLinks(Crawled(V6(), Queued(5, 4), [], 4), Some(4));
    Match7();
  }

  lemma Match7()
    ensures Done(Crawled(V6(), Queued(5, 4), [], 4), 5) == V7()
  {
  }

  lemma FirstSeeds()
    ensures Distinct([0]) && Seeds(Example(), [0]) == [0]
  {
    assert [] + [0] == [0];
    assert Seeds(Example(), []) == [];
    hide Seeds, Eligible, InGroup;
    SeedsSnoc(Example(), [], 0);
  }

  lemma FirstQueue()
    ensures QueueOf(map[0 := 0], {}, [0]) == [Queued(0, 0)] && Ids([Queued(0, 0)]) == {0}
    ensures HtmlSnapshots(Example(), {}) == {} && GroupCounts(Example().group, [0]) == map[]
  {
    assert [0][..0] == [];
    assert QueueOf(map[0 := 0], {}, []) == [];
    assert Queued(0, 0) in [Queued(0, 0)];
    assert GroupCounts(Example().group, []) == map[];
  }

  lemma Start()
    ensures Distinct([0]) && InitialView(Example(), [0], false, map[], {}, [], {}) == V0()
    ensures SeededByRoot(Example(), [0], false)
  {
    hide Seeds, QueueOf, Ids, HtmlSnapshots, GroupCounts, Distinct;
    FirstSeeds();
    FirstQueue();
  }

  /** The loop makes this step. */
  lemma Advance(v: View, head: Entry, rest: seq<Entry>)
    requires Progress(Example(), 100, V0(), v) && |v.visited| < 100
    requires SortedBy(v.pending, QueueLeq) && v.pending == [head] + rest
    ensures Progress(Example(), 100, V0(), AfterStep(Example(), v, Example().active(head.id, v.checks)))
  {
    hide Progress, AfterStep, SortedBy;
    SortedAlready(v);
    StepProgress(Example(), 100, V0(), v, Example().active(head.id, v.checks));
  }

  lemma StartProgress()
    ensures Progress(Example(), 100, V0(), V0())
  {
    hide Invariant, InitialView, V0;
    Start();
    InitialInvariant(Example(), [0], false, map[], {}, [], {});
    assert V0().followed == V0().inactive == {} && V0().checks == 0 && V0().crawledAt == map[] by { StartEmpty(); }
    InitialProgress(Example(), 100, V0());
  }

  lemma StartEmpty()
    ensures V0().followed == V0().inactive == {} && V0().checks == 0 && V0().crawledAt == map[]
  {
  }

  /** The loop takes this head from v, active or not. */
  ghost predicate Takes(v: View, head: Entry, rest: seq<Entry>, isActive: bool) {
    && |v.visited| < 100 && SortedBy(v.pending, QueueLeq) && v.pending == [head] + rest
    && Example().active(head.id, v.checks) == isActive
  }

  lemma Taken(v: View, head: Entry, rest: seq<Entry>, isActive: bool)
    requires Progress(Example(), 100, V0(), v) && Takes(v, head, rest, isActive)
    ensures Progress(Example(), 100, V0(), AfterStep(Example(), v, isActive))
  {
    hide Progress, AfterStep, SortedBy, Example, V0;
    Advance(v, head, rest);
  }

  lemma Take1()
    ensures Takes(V0(), Queued(0, 0), [], true)
  {
  }

  lemma Reach1()
    ensures Progress(Example(), 100, V0(), V1())
  {
    hide *;
    StartProgress();
    Take1();
    Taken(V0(), Queued(0, 0), [], true);
    Step1();
  }

  lemma Take2()
    ensures Takes(V1(), Queued(1, 1), [Queued(2, 1)], false)
  {
  }

  lemma Reach2()
    ensures Progress(Example(), 100, V0(), V2())
  {
    hide *;
    Reach1();
    Take2();
    Taken(V1(), Queued(1, 1), [Queued(2, 1)], false);
    Step2();
  }

  lemma Take3()
    ensures Takes(V2(), Queued(2, 1), [], true)
  {
  }

  lemma Reach3()
    ensures Progress(Example(), 100, V0(), V3())
  {
    hide *;
    Reach2();
    Take3();
    Taken(V2(), Queued(2, 1), [], true);
    Step3();
  }

  lemma Take4()
    ensures Takes(V3(), Queued(3, 2), [], true)
  {
  }

  lemma Reach4()
    ensures Progress(Example(), 100, V0(), V4())
  {
    hide *;
    Reach3();
    Take4();
    Taken(V3(), Queued(3, 2), [], true);
    Step4();
  }

  lemma Take5()
    ensures Takes(V4(), Queued(4, 3), [Queued(1, 3)], true)
  {
  }

  lemma Reach5()
    ensures Progress(Example(), 100, V0(), V5())
  {
    hide *;
    Reach4();
    Take5();
    Taken(V4(), Queued(4, 3), [Queued(1, 3)], true);
    Step5();
  }

  lemma Take6()
    ensures Takes(V5(), Queued(1, 3), [Queued(5, 4)], true)
  {
  }

  lemma Reach6()
    ensures Progress(Example(), 100, V0(), V6())
  {
    hide *;
    Reach5();
    Take6();
    Taken(V5(), Queued(1, 3), [Queued(5, 4)], true);
    Step6();
  }

  lemma Take7()
    ensures Takes(V6(), Queued(5, 4), [], true)
  {
  }

  lemma Reach7()
    ensures Progress(Example(), 100, V0(), V7())
  {
    hide *;
    Reach6();
    Take7();
    Taken(V6(), Queued(5, 4), [], true);
    Step7();
  }

  lemma ShorterPath()
    ensures LinkPath(Example(), {0, 1, 2, 3, 4, 5}, [0, 1, 4, 5])
  {
  }

  lemma NotShortest(site: Site, crawled: set<UrlId>, u: UrlId, d: nat, p: seq<UrlId>)
    requires LinkPath(site, crawled, p) && p[|p| - 1] == u && |p| <= d
    ensures !ShortestDepth(site, crawled, u, d)
  {
    hide LinkPath;
  }

  /** The example ends with an empty queue, and page 5 has depth 4 although three links lead to it. */
  lemma ReactivatedPageMisleads()
    ensures Distinct([0]) && SeededByRoot(Example(), [0], false)
    ensures Progress(Example(), 100, InitialView(Example(), [0], false, map[], {}, [], {}), V7())
    ensures V7().pending == [] && 5 in V7().depth && !ShortestDepth(Example(), V7().visited, 5, V7().depth[5])
  {
    hide Progress, InitialView, ShortestDepth, LinkPath, SeededByRoot, Example, V0;
    Start();
    Reach7();
    ShorterPath();
    NotShortest(Example(), V7().visited, 5, V7().depth[5], [0, 1, 4, 5]);
  }
}
