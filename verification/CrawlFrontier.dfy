/**
 The full-site crawl frontier: a worklist of known and discovered pages, popped by crawl depth,
 bounded by a page maximum and a cap on query-string variants, and resumable from snapshots.
 */
module CrawlFrontier {
  import opened Basics
  import opened Sorting

  type UrlId = nat
  type Group = string

  /** A queue entry: a page and the depth it was queued with; None for a seed of unknown depth. */
  datatype Entry = Entry(id: UrlId, depth: Option<nat>)

  datatype Outcome = Complete | Limited | Interrupted

  const MAX_QUERY_VARIANTS_PER_PATH: nat := 100

  /** One crawl's view of the website. A row's activity may change while the crawl goes on. */
  datatype Site = Site(
    root: UrlId,
    links: UrlId -> seq<UrlId>,
    html: UrlId -> bool,
    excluded: UrlId -> bool,
    group: UrlId -> Option<Group>,
    active: (UrlId, nat) -> bool)

  // ---------- link paths ----------

  /** p follows links from the root, and every page it leaves was crawled. */
  ghost predicate LinkPath(site: Site, crawled: set<UrlId>, p: seq<UrlId>) {
    && p != [] && p[0] == site.root
    && forall i :: 0 <= i < |p| - 1 ==> p[i] in crawled && p[i + 1] in site.links(p[i])
  }

  ghost predicate ReachedIn(site: Site, crawled: set<UrlId>, u: UrlId, d: nat) {
    exists p :: LinkPath(site, crawled, p) && |p| == d + 1 && p[d] == u
  }

  /** Every stored depth is the length of some link path through crawled pages. */
  ghost predicate Witnessed(site: Site, crawled: set<UrlId>, depth: map<UrlId, nat>) {
    forall u :: u in depth ==> ReachedIn(site, crawled, u, depth[u])
  }

  /** d is the length of a shortest link path from the root to u through crawled pages. */
  ghost predicate ShortestDepth(site: Site, crawled: set<UrlId>, u: UrlId, d: nat) {
    && ReachedIn(site, crawled, u, d)
    && forall p :: LinkPath(site, crawled, p) && p[|p| - 1] == u ==> d <= |p| - 1
  }

  lemma RootReached(site: Site, crawled: set<UrlId>)
    ensures ReachedIn(site, crawled, site.root, 0)
  {
    assert LinkPath(site, crawled, [site.root]);
  }

  lemma ReachedStep(site: Site, crawled: set<UrlId>, u: UrlId, t: UrlId, d: nat)
    requires ReachedIn(site, crawled, u, d) && u in crawled && t in site.links(u)
    ensures ReachedIn(site, crawled, t, d + 1)
  {
    var p :| LinkPath(site, crawled, p) && |p| == d + 1 && p[d] == u;
    assert LinkPath(site, crawled, p + [t]);
    assert (p + [t])[d + 1] == t;
  }

  lemma WitnessedMonotone(site: Site, a: set<UrlId>, b: set<UrlId>, depth: map<UrlId, nat>)
    requires a <= b && Witnessed(site, a, depth)
    ensures Witnessed(site, b, depth)
  {
    forall u | u in depth ensures ReachedIn(site, b, u, depth[u]) {
      ReachedMonotone(site, a, b, u, depth[u]);
    }
  }

  lemma ReachedMonotone(site: Site, a: set<UrlId>, b: set<UrlId>, u: UrlId, d: nat)
    requires a <= b && ReachedIn(site, a, u, d)
    ensures ReachedIn(site, b, u, d)
  {
    var p :| LinkPath(site, a, p) && |p| == d + 1 && p[d] == u;
    assert LinkPath(site, b, p);
  }

  /** Following a link from a crawled page never gains more than one level. */
  ghost predicate Relaxed(site: Site, crawled: set<UrlId>, depth: map<UrlId, nat>) {
    && crawled <= depth.Keys
    && forall u, t :: u in crawled && t in crawled && t in site.links(u) ==> depth[t] <= depth[u] + 1
  }

  lemma {:induction false} RelaxedLowerBound(site: Site, crawled: set<UrlId>, depth: map<UrlId, nat>, p: seq<UrlId>)
    requires Relaxed(site, crawled, depth)
    requires site.root in depth && depth[site.root] == 0
    requires LinkPath(site, crawled, p) && p[|p| - 1] in crawled
    ensures depth[p[|p| - 1]] <= |p| - 1
  {
    if |p| > 1 {
      var q := p[..|p| - 1];
      assert LinkPath(site, crawled, q);
      RelaxedLowerBound(site, crawled, depth, q);
    }
  }

  /** A relaxed, witnessed depth map is the breadth-first distance map. */
  lemma RelaxedIsShortest(site: Site, crawled: set<UrlId>, depth: map<UrlId, nat>)
    requires Relaxed(site, crawled, depth) && Witnessed(site, crawled, depth)
    requires site.root in depth && depth[site.root] == 0
    ensures forall u :: u in crawled ==> u in depth && ShortestDepth(site, crawled, u, depth[u])
  {
    forall u, p | u in crawled && LinkPath(site, crawled, p) && p[|p| - 1] == u ensures depth[u] <= |p| - 1 {
      RelaxedLowerBound(site, crawled, depth, p);
    }
  }

  /** Conversely, exact distances never drop by more than one level along a link. */
  lemma ShortestIsRelaxed(site: Site, crawled: set<UrlId>, depth: map<UrlId, nat>)
    requires forall u :: u in crawled ==> u in depth && ShortestDepth(site, crawled, u, depth[u])
    ensures Relaxed(site, crawled, depth)
  {
    forall u, t | u in crawled && t in crawled && t in site.links(u) ensures depth[t] <= depth[u] + 1 {
      ReachedStep(site, crawled, u, t, depth[u]);
      var p :| LinkPath(site, crawled, p) && |p| == depth[u] + 2 && p[depth[u] + 1] == t;
    }
  }

  // ---------- the query-variant cap ----------

  function InGroup(group: UrlId -> Option<Group>, urls: seq<UrlId>, g: Group): (n: nat)
    ensures n <= |urls|
  {
    if urls == [] then 0
    else InGroup(group, urls[..|urls| - 1], g) + if group(urls[|urls| - 1]) == Some(g) then 1 else 0
  }

  /** Keeps a URL when it has no group or fewer than cap earlier URLs share its group. */
  function FirstVariants(group: UrlId -> Option<Group>, urls: seq<UrlId>, cap: nat): (r: seq<UrlId>)
    ensures forall u :: u in r ==> u in urls
  {
    if urls == [] then [] else
      var before, last := urls[..|urls| - 1], urls[|urls| - 1];
      var g := group(last);
      FirstVariants(group, before, cap) +
      if g.None? || InGroup(group, before, g.value) < cap then [last] else []
  }

  lemma InGroupSnoc(group: UrlId -> Option<Group>, urls: seq<UrlId>, u: UrlId, g: Group)
    ensures InGroup(group, urls + [u], g) == InGroup(group, urls, g) + if group(u) == Some(g) then 1 else 0
  {
    assert (urls + [u])[..|urls|] == urls;
  }

  /** Per group, exactly the first min(count, cap) survive. */
  lemma {:induction false} FirstVariantsCount(group: UrlId -> Option<Group>, urls: seq<UrlId>, cap: nat, g: Group)
    ensures InGroup(group, FirstVariants(group, urls, cap), g) == Min(InGroup(group, urls, g), cap)
  {
    if urls != [] {
      var before, last := urls[..|urls| - 1], urls[|urls| - 1];
      FirstVariantsCount(group, before, cap, g);
      var kept := FirstVariants(group, before, cap);
      InGroupSnoc(group, kept, last, g);
      assert kept + [] == kept;
    }
  }

  /** Ungrouped URLs all survive. */
  lemma {:induction false} FirstVariantsKeepsUngrouped(group: UrlId -> Option<Group>, urls: seq<UrlId>, cap: nat,
                                                       u: UrlId)
    requires u in urls && group(u).None?
    ensures u in FirstVariants(group, urls, cap)
  {
    var before, last := urls[..|urls| - 1], urls[|urls| - 1];
    if u != last {
      assert u in before;
      FirstVariantsKeepsUngrouped(group, before, cap, u);
    }
  }

  lemma {:induction false} FirstVariantsDistinct(group: UrlId -> Option<Group>, urls: seq<UrlId>, cap: nat)
    requires Distinct(urls)
    ensures Distinct(FirstVariants(group, urls, cap))
  {
    if urls != [] {
      var before, last := urls[..|urls| - 1], urls[|urls| - 1];
      FirstVariantsDistinct(group, before, cap);
      assert last !in before;
      DistinctSnoc(FirstVariants(group, before, cap), last);
      assert FirstVariants(group, before, cap) + [] == FirstVariants(group, before, cap);
    }
  }

  /** How many URLs before position i share the group of the one there. */
  ghost function Earlier(group: UrlId -> Option<Group>, urls: seq<UrlId>, i: nat): nat
    requires i < |urls|
  {
    |set j | 0 <= j < i && group(urls[j]) == group(urls[i])|
  }

  lemma {:induction false} InGroupIsCount(group: UrlId -> Option<Group>, urls: seq<UrlId>, g: Group)
    ensures InGroup(group, urls, g) == |set j | 0 <= j < |urls| && group(urls[j]) == Some(g)|
  {
    var all := set j | 0 <= j < |urls| && group(urls[j]) == Some(g);
    if urls == [] {
      assert all == {};
    } else {
      var before := urls[..|urls| - 1];
      InGroupIsCount(group, before, g);
      var some := set j | 0 <= j < |before| && group(before[j]) == Some(g);
      if group(urls[|urls| - 1]) == Some(g) {
        assert all == some + {|urls| - 1};
      } else {
        assert all == some;
      }
    }
  }

  /** kept are the positions, in order, of the URLs without a group or with fewer than cap earlier ones of it. */
  ghost predicate KeptPositions(group: UrlId -> Option<Group>, urls: seq<UrlId>, cap: nat, kept: seq<nat>) {
    && (forall i, j :: 0 <= i < j < |kept| ==> kept[i] < kept[j])
    && (forall i :: 0 <= i < |kept| ==> kept[i] < |urls|)
    && forall i: nat :: i < |urls| ==> (i in kept <==> group(urls[i]).None? || Earlier(group, urls, i) < cap)
  }

  /** Admitted are, in order, the URLs without a group or with fewer than cap earlier ones of it. */
  ghost predicate AdmitsFirst(group: UrlId -> Option<Group>, urls: seq<UrlId>, cap: nat, admitted: seq<UrlId>) {
    exists kept :: KeptPositions(group, urls, cap, kept) && ListsAt(admitted, urls, kept)
  }

  ghost predicate ListsAt(admitted: seq<UrlId>, urls: seq<UrlId>, kept: seq<nat>) {
    |admitted| == |kept| && forall k :: 0 <= k < |kept| ==> kept[k] < |urls| && admitted[k] == urls[kept[k]]
  }

  lemma EarlierInPrefix(group: UrlId -> Option<Group>, urls: seq<UrlId>, i: nat)
    requires i < |urls|
    ensures group(urls[i]).Some? ==> Earlier(group, urls, i) == InGroup(group, urls[..i], group(urls[i]).value)
    ensures forall n: nat :: i < n <= |urls| ==> Earlier(group, urls[..n], i) == Earlier(group, urls, i)
  {
    if group(urls[i]).Some? {
      var g := group(urls[i]).value;
      InGroupIsCount(group, urls[..i], g);
      assert (set j | 0 <= j < i && group(urls[j]) == group(urls[i])) ==
             set j | 0 <= j < |urls[..i]| && group(urls[..i][j]) == Some(g);
    }
    forall n: nat | i < n <= |urls| ensures Earlier(group, urls[..n], i) == Earlier(group, urls, i) {
      assert (set j | 0 <= j < i && group(urls[..n][j]) == group(urls[..n][i])) ==
             set j | 0 <= j < i && group(urls[j]) == group(urls[i]);
    }
  }

  lemma KeptNext(group: UrlId -> Option<Group>, urls: seq<UrlId>, cap: nat, before: seq<nat>)
    requires urls != [] && KeptPositions(group, urls[..|urls| - 1], cap, before)
    ensures
      var n := |urls| - 1;
      var admitted := group(urls[n]).None? || Earlier(group, urls, n) < cap;
      KeptPositions(group, urls, cap, if admitted then before + [n] else before)
  {
    hide Earlier;
    var n := |urls| - 1;
    var kept := if group(urls[n]).None? || Earlier(group, urls, n) < cap then before + [n] else before;
    assert forall i: nat :: i in kept <==> i in before || (i == n && n in kept);
    forall i: nat | i < |urls| ensures i in kept <==> group(urls[i]).None? || Earlier(group, urls, i) < cap {
      EarlierInPrefix(group, urls, i);
      if i < n { assert urls[..n][i] == urls[i]; }
    }
  }

  lemma FirstVariantsNext(group: UrlId -> Option<Group>, urls: seq<UrlId>, cap: nat)
    requires urls != []
    ensures
      var n := |urls| - 1;
      var admitted := group(urls[n]).None? || Earlier(group, urls, n) < cap;
      FirstVariants(group, urls, cap) == FirstVariants(group, urls[..n], cap) + (if admitted then [urls[n]] else [])
  {
    hide Earlier, InGroup;
    EarlierInPrefix(group, urls, |urls| - 1);
  }

  lemma ListsNext(admitted: seq<UrlId>, urls: seq<UrlId>, kept: seq<nat>)
    requires urls != [] && ListsAt(admitted, urls[..|urls| - 1], kept)
    ensures ListsAt(admitted, urls, kept)
    ensures ListsAt(admitted + [urls[|urls| - 1]], urls, kept + [|urls| - 1])
  {
    assert forall i | 0 <= i < |urls| - 1 :: urls[..|urls| - 1][i] == urls[i];
  }

  lemma KeptNone(group: UrlId -> Option<Group>, cap: nat)
    ensures KeptPositions(group, [], cap, []) && ListsAt(FirstVariants(group, [], cap), [], [])
  {
  }

  /** Which URLs are admitted, and that their order is kept. */
  lemma {:induction false} FirstVariantsAre(group: UrlId -> Option<Group>, urls: seq<UrlId>, cap: nat)
      returns (kept: seq<nat>)
    ensures KeptPositions(group, urls, cap, kept) && ListsAt(FirstVariants(group, urls, cap), urls, kept)
  {
    hide Earlier, FirstVariants, KeptPositions, ListsAt;
    if urls == [] {
      kept := [];
      KeptNone(group, cap);
    } else {
      var n := |urls| - 1;
      var before := FirstVariantsAre(group, urls[..n], cap);
      FirstVariantsNext(group, urls, cap);
      KeptNext(group, urls, cap, before);
      ListsNext(FirstVariants(group, urls[..n], cap), urls, before);
      kept := if group(urls[n]).None? || Earlier(group, urls, n) < cap then before + [n] else before;
      assert FirstVariants(group, urls[..n], cap) + [] == FirstVariants(group, urls[..n], cap);
    }
  }

  function CountOf(counts: map<Group, nat>, g: Group): nat {
    if g in counts then counts[g] else 0
  }

  method LimitQueryVariants(group: UrlId -> Option<Group>, urls: seq<UrlId>, maximumPerPath: Option<nat>)
    returns (admitted: seq<UrlId>)
    ensures var cap := if maximumPerPath == None || maximumPerPath == Some(0)
                       then MAX_QUERY_VARIANTS_PER_PATH else maximumPerPath.value;
            admitted == FirstVariants(group, urls, cap)
    ensures
      var cap := if maximumPerPath == None || maximumPerPath == Some(0) then 100 else maximumPerPath.value;
      AdmitsFirst(group, urls, cap, admitted)
  {
    hide AdmitsFirst;
    var cap := if maximumPerPath == None || maximumPerPath == Some(0)
               then MAX_QUERY_VARIANTS_PER_PATH else maximumPerPath.value;
    admitted := [];
    var counts: map<Group, nat> := map[];
    for i := 0 to |urls|
      invariant admitted == FirstVariants(group, urls[..i], cap)
      invariant forall g :: CountOf(counts, g) == Min(InGroup(group, urls[..i], g), cap)
    {
      assert urls[..i + 1][..i] == urls[..i];
      var g := group(urls[i]);
      if g.None? {
        admitted := admitted + [urls[i]];
        continue;
      }
      var count := CountOf(counts, g.value);
      if count >= cap {
        continue;
      }
      counts := counts[g.value := count + 1];
      admitted := admitted + [urls[i]];
    }
    assert urls[..|urls|] == urls;
    FirstVariantsAdmit(group, urls, cap);
  }

  lemma FirstVariantsAdmit(group: UrlId -> Option<Group>, urls: seq<UrlId>, cap: nat)
    ensures AdmitsFirst(group, urls, cap, FirstVariants(group, urls, cap))
  {
    var kept := FirstVariantsAre(group, urls, cap);
  }

  function DepthOf(depth: map<UrlId, nat>, u: UrlId): nat {
    if u in depth then depth[u] else 0
  }

  /** The pages of a set that belong to a group. */
  ghost function Members(group: UrlId -> Option<Group>, s: set<UrlId>, g: Group): set<UrlId> {
    set u | u in s && group(u) == Some(g)
  }

  lemma MembersAdd(group: UrlId -> Option<Group>, s: set<UrlId>, u: UrlId, g: Group)
    requires u !in s
    ensures |Members(group, s + {u}, g)| == |Members(group, s, g)| + if group(u) == Some(g) then 1 else 0
  {
    if group(u) == Some(g) {
      assert Members(group, s + {u}, g) == Members(group, s, g) + {u};
    } else {
      assert Members(group, s + {u}, g) == Members(group, s, g);
    }
  }

  lemma {:induction false} InGroupCountsSet(group: UrlId -> Option<Group>, urls: seq<UrlId>, g: Group)
    requires Distinct(urls)
    ensures InGroup(group, urls, g) == |Members(group, Elements(urls), g)|
  {
    if urls == [] {
      assert Members(group, Elements(urls), g) == {};
    } else {
      var before, last := urls[..|urls| - 1], urls[|urls| - 1];
      InGroupCountsSet(group, before, g);
      assert urls == before + [last];
      assert Elements(urls) == Elements(before) + {last} && last !in Elements(before);
      MembersAdd(group, Elements(before), last, g);
    }
  }

  // ---------- the queue order ----------

  /** Known depths first, ascending; unknown depths last. */
  predicate QueueLeq(a: Entry, b: Entry) {
    match (a.depth, b.depth)
    case (None, None) => true
    case (None, Some(_)) => false
    case (Some(_), None) => true
    case (Some(x), Some(y)) => x <= y
  }

  ghost function Ids(pending: seq<Entry>): set<UrlId> {
    set e | e in pending :: e.id
  }

  ghost predicate DistinctIds(pending: seq<Entry>) {
    forall i, j :: 0 <= i < j < |pending| ==> pending[i].id != pending[j].id
  }

  /** Queueing an id that is not queued yet. */
  lemma EnqueueNew(pending: seq<Entry>, e: Entry)
    requires DistinctIds(pending) && e.id !in Ids(pending)
    ensures DistinctIds(pending + [e]) && Ids(pending + [e]) == Ids(pending) + {e.id}
  {
    forall u ensures u in Ids(pending + [e]) <==> u in Ids(pending) + {e.id} {
      if u in Ids(pending) {
        var x :| x in pending && x.id == u;
        assert x in pending + [e];
      }
      if u == e.id { assert e in pending + [e]; }
    }
    forall i | 0 <= i < |pending| ensures pending[i].id != e.id {
      assert pending[i] in pending;
    }
  }

  lemma Dequeue(pending: seq<Entry>)
    requires DistinctIds(pending) && pending != []
    ensures DistinctIds(pending[1..]) && Ids(pending[1..]) == Ids(pending) - {pending[0].id}
  {
    forall u ensures u in Ids(pending[1..]) <==> u in Ids(pending) - {pending[0].id} {
      if u in Ids(pending) && u != pending[0].id {
        var x :| x in pending && x.id == u;
        assert x in pending[1..];
      }
      if u in Ids(pending[1..]) {
        var i :| 0 <= i < |pending[1..]| && pending[1..][i].id == u;
        assert pending[i + 1].id == u && pending[i + 1] in pending;
      }
    }
  }

  lemma SortedQueue(pending: seq<Entry>)
    requires DistinctIds(pending)
    ensures var s := Sort(pending, QueueLeq);
            && SortedBy(s, QueueLeq) && DistinctIds(s) && Ids(s) == Ids(pending)
            && (forall e :: e in s <==> e in pending)
  {
    assert TotalPreorder(QueueLeq);
    SortSorts(pending, QueueLeq);
    hide Sort, SortedBy, QueueLeq;
    SameEntries(pending, Sort(pending, QueueLeq));
  }

  lemma SameEntries(pending: seq<Entry>, s: seq<Entry>)
    requires DistinctIds(pending) && multiset(s) == multiset(pending)
    ensures DistinctIds(s) && Ids(s) == Ids(pending)
    ensures forall e :: e in s <==> e in pending
  {
    forall e ensures e in s <==> e in pending {
      assert e in multiset(s) <==> e in multiset(pending);
    }
    PermutationDistinct(pending, s);
    forall i, j | 0 <= i < j < |s| ensures s[i].id != s[j].id {
      assert s[i] in pending && s[j] in pending && s[i] != s[j];
    }
  }

  // ---------- the crawl ----------

  /** The seeds a call starts from: known pages that are HTML and not excluded, variants capped. */
  function Eligible(site: Site, known: seq<UrlId>): (r: seq<UrlId>)
    ensures forall u :: u in r <==> u in known && site.html(u) && !site.excluded(u)
  {
    if known == [] then [] else
      var before, last := known[..|known| - 1], known[|known| - 1];
      assert known == before + [last];
      Eligible(site, before) + if site.html(last) && !site.excluded(last) then [last] else []
  }

  lemma {:induction false} EligibleDistinct(site: Site, known: seq<UrlId>)
    requires Distinct(known)
    ensures Distinct(Eligible(site, known))
  {
    if known != [] {
      var before, last := known[..|known| - 1], known[|known| - 1];
      EligibleDistinct(site, before);
      assert last !in before;
      DistinctSnoc(Eligible(site, before), last);
      assert Eligible(site, before) + [] == Eligible(site, before);
    }
  }

  function Seeds(site: Site, known: seq<UrlId>): seq<UrlId> {
    FirstVariants(site.group, Eligible(site, known), MAX_QUERY_VARIANTS_PER_PATH)
  }

  /** The known pages before position i of its group that can be crawled. */
  ghost function Rivals(site: Site, known: seq<UrlId>, i: nat, g: Group): set<nat>
    requires i <= |known|
  {
    set j | 0 <= j < i && site.html(known[j]) && !site.excluded(known[j]) && site.group(known[j]) == Some(g)
  }

  /** A known page is due if it can be crawled and is among the first hundred of its group. */
  ghost predicate Due(site: Site, known: seq<UrlId>, i: nat)
    requires i < |known|
  {
    && site.html(known[i]) && !site.excluded(known[i])
    && (site.group(known[i]).Some? ==> |Rivals(site, known, i, site.group(known[i]).value)| < 100)
  }

  lemma RivalsNext(site: Site, known: seq<UrlId>, i: nat, g: Group)
    requires i < |known|
    ensures |Rivals(site, known, i + 1, g)| == |Rivals(site, known, i, g)| +
              One(site.html(known[i]) && !site.excluded(known[i]) && site.group(known[i]) == Some(g))
  {
    assert i in Rivals(site, known, i + 1, g) <==>
      site.html(known[i]) && !site.excluded(known[i]) && site.group(known[i]) == Some(g);
    if i in Rivals(site, known, i + 1, g) {
      assert Rivals(site, known, i + 1, g) == Rivals(site, known, i, g) + {i};
    } else {
      assert Rivals(site, known, i + 1, g) == Rivals(site, known, i, g);
    }
  }

  lemma RivalsInPrefix(site: Site, known: seq<UrlId>, n: nat, i: nat, g: Group)
    requires i <= n <= |known|
    ensures Rivals(site, known[..n], i, g) == Rivals(site, known, i, g)
  {
    assert forall j | 0 <= j < i :: known[..n][j] == known[j];
  }

  lemma EligibleSnoc(site: Site, before: seq<UrlId>, last: UrlId)
    ensures Eligible(site, before + [last]) ==
            Eligible(site, before) + (if site.html(last) && !site.excluded(last) then [last] else [])
  {
    assert (before + [last])[..|before|] == before;
  }

  lemma {:induction false} EligibleInGroup(site: Site, known: seq<UrlId>, g: Group)
    ensures InGroup(site.group, Eligible(site, known), g) == |Rivals(site, known, |known|, g)|
  {
    if known == [] {
      assert Rivals(site, known, 0, g) == {};
    } else {
      hide Rivals, Eligible, InGroup;
      var n := |known| - 1;
      var before, last := known[..n], known[n];
      assert known == before + [last];
      EligibleInGroup(site, before, g);
      RivalsInPrefix(site, known, n, n, g);
      RivalsNext(site, known, n, g);
      EligibleSnoc(site, before, last);
      InGroupSnoc(site.group, Eligible(site, before), last, g);
      assert Eligible(site, before) + [] == Eligible(site, before);
    }
  }

  lemma SeedsSnoc(site: Site, before: seq<UrlId>, last: UrlId)
    ensures
      var admitted := site.html(last) && !site.excluded(last) &&
                      (site.group(last).None? ||
                       InGroup(site.group, Eligible(site, before), site.group(last).value) < 100);
      Seeds(site, before + [last]) == Seeds(site, before) + (if admitted then [last] else [])
  {
    assert (before + [last])[..|before|] == before;
    var eligible := Eligible(site, before);
    assert (eligible + [last])[..|eligible|] == eligible;
    assert eligible + [] == eligible && Seeds(site, before) + [] == Seeds(site, before);
  }

  lemma DueInPrefix(site: Site, known: seq<UrlId>, n: nat, i: nat)
    requires i < n <= |known|
    ensures Due(site, known[..n], i) <==> Due(site, known, i)
  {
    hide Rivals;
    assert known[..n][i] == known[i];
    if site.group(known[i]).Some? { RivalsInPrefix(site, known, n, i, site.group(known[i]).value); }
  }

  lemma LastSeedIffDue(site: Site, before: seq<UrlId>, last: UrlId)
    requires last !in before
    ensures last in Seeds(site, before + [last]) <==> Due(site, before + [last], |before|)
  {
    hide Rivals, Seeds, InGroup, Eligible;
    var known := before + [last];
    assert known[..|before|] == before;
    SeedsSnoc(site, before, last);
    SeedsAreKnown(site, before);
    if site.group(last).Some? {
      EligibleInGroup(site, before, site.group(last).value);
      RivalsInPrefix(site, known, |before|, |before|, site.group(last).value);
    }
  }

  /** The seeds are exactly the known pages that are due. */
  lemma {:induction false} SeedIffDue(site: Site, known: seq<UrlId>, i: nat)
    requires Distinct(known) && i < |known|
    ensures known[i] in Seeds(site, known) <==> Due(site, known, i)
  {
    hide Seeds, Due, InGroup, Eligible;
    var n := |known| - 1;
    var before, last := known[..n], known[n];
    assert known == before + [last] && last !in before;
    if i < n {
      SeedIffDue(site, before, i);
      SeedsSnoc(site, before, last);
      DueInPrefix(site, known, n, i);
      assert known[i] == before[i] && known[i] != last;
    } else {
      LastSeedIffDue(site, before, last);
    }
  }

  lemma SeedsAreKnown(site: Site, known: seq<UrlId>)
    ensures forall u :: u in Seeds(site, known) ==> u in known
  {
  }

  /**
   The stored rows and working state of one call, with its history.
   Stored: urls.crawl_depth (absent when NULL) and the run's snapshots.
   History: pages of the run in crawl order; pages of this call whose links were followed; pages
   popped while inactive; whether the run is fresh, and seeded by the root alone; the last level; the
   pages, of this run or another one, through which the stored depths lead; the checks so far; the
   depths, where known, with which pages of this call were crawled.
   */
  datatype View = View(
    depth: map<UrlId, nat>,
    snapshots: set<UrlId>,
    pending: seq<Entry>,
    pendingIds: set<UrlId>,
    visited: set<UrlId>,
    frontierIds: set<UrlId>,
    counts: map<Group, nat>,
    auditedAssets: set<UrlId>,
    log: seq<UrlId>,
    followed: set<UrlId>,
    inactive: set<UrlId>,
    freshRun: bool,
    rootOnly: bool,
    level: nat,
    witnesses: set<UrlId>,
    checks: nat,
    crawledAt: map<UrlId, nat>)

  // ---------- invariants ----------

  ghost function HtmlSnapshots(site: Site, snapshots: set<UrlId>): set<UrlId> {
    set u | u in snapshots && site.html(u)
  }

  /** What survives between calls: depths are witnessed, and the log is the crawled pages, once each. */
  ghost predicate Stored(site: Site, depth: map<UrlId, nat>, snapshots: set<UrlId>, log: seq<UrlId>,
                         witnesses: set<UrlId>) {
    && Witnessed(site, witnesses, depth)
    && HtmlSnapshots(site, snapshots) <= witnesses
    && Elements(log) == HtmlSnapshots(site, snapshots)
    && Distinct(log)
  }

  /**
   While a run is paused another one of the website may replace the depths: it can still be resumed, and so
   can a run that failed before it crawled anything.
   */
  lemma StoredByAnother(site: Site,
                        snapshots: set<UrlId>, log: seq<UrlId>, depth: map<UrlId, nat>, witnesses: set<UrlId>,
                        otherSnapshots: set<UrlId>, otherLog: seq<UrlId>,
                        otherDepth: map<UrlId, nat>, otherWitnesses: set<UrlId>)
    requires Stored(site, depth, snapshots, log, witnesses)
    requires Stored(site, otherDepth, otherSnapshots, otherLog, otherWitnesses)
    ensures Stored(site, otherDepth, snapshots, log, witnesses + otherWitnesses)
    ensures Stored(site, otherDepth, {}, [], otherWitnesses)
  {
    WitnessedMonotone(site, otherWitnesses, witnesses + otherWitnesses, otherDepth);
    assert HtmlSnapshots(site, {}) == {};
  }

  ghost predicate Worklist(site: Site, v: View) {
    && DistinctIds(v.pending) && Ids(v.pending) == v.pendingIds
    && v.visited !! v.pendingIds
    && v.frontierIds == v.visited + v.pendingIds + v.inactive
    && v.followed <= v.visited == HtmlSnapshots(site, v.snapshots)
    && v.auditedAssets == v.snapshots - v.visited
    && (forall u :: u in v.frontierIds ==> site.html(u))
    && Distinct(v.log) && Elements(v.log) == v.visited
    && v.visited <= v.witnesses
    && (v.freshRun ==> v.witnesses == v.visited)
  }

  /** A queued depth is witnessed too, and the stored depth is no larger. */
  ghost predicate QueueSound(site: Site, witnesses: set<UrlId>, depth: map<UrlId, nat>, pending: seq<Entry>) {
    forall e :: e in pending && e.depth.Some? ==>
      e.id in depth && depth[e.id] <= e.depth.value && ReachedIn(site, witnesses, e.id, e.depth.value)
  }

  ghost predicate DepthsSound(site: Site, v: View) {
    Witnessed(site, v.witnesses, v.depth) && QueueSound(site, v.witnesses, v.depth, v.pending)
  }

  /** The counters are exactly the sizes of the groups in the frontier, and within the cap. */
  ghost predicate ExactCounts(site: Site, counts: map<Group, nat>, frontierIds: set<UrlId>) {
    forall g :: CountOf(counts, g) == |Members(site.group, frontierIds, g)| <= 100
  }

  /** An HTML target is in the frontier, or its variant group is full. */
  ghost predicate Handled(site: Site, frontierIds: set<UrlId>, counts: map<Group, nat>, t: UrlId) {
    site.html(t) && t !in frontierIds ==>
      site.group(t).Some? && CountOf(counts, site.group(t).value) >= MAX_QUERY_VARIANTS_PER_PATH
  }

  ghost predicate LinksHandled(site: Site, followed: set<UrlId>, frontierIds: set<UrlId>, counts: map<Group, nat>) {
    forall u, t :: u in followed && t in site.links(u) ==> Handled(site, frontierIds, counts, t)
  }

  ghost predicate LinksRelaxed(site: Site, followed: set<UrlId>, frontierIds: set<UrlId>, depth: map<UrlId, nat>) {
    forall u, t :: u in followed && t in site.links(u) && t in frontierIds ==>
      DepthOf(depth, t) <= DepthOf(depth, u) + 1
  }

  /** A page crawled from the root-only queue: no page skipped as inactive was crawled later on. */
  ghost predicate Regular(v: View) {
    v.rootOnly && v.inactive !! v.visited
  }

  /** The breadth-first invariant; `level` is the depth of the page crawled last. */
  ghost predicate BreadthFirst(site: Site, v: View) {
    && v.freshRun
    && site.root in v.depth && v.depth[site.root] == 0
    && v.depth.Keys == v.frontierIds
    && (forall e :: e in v.pending ==> e.depth.Some? && v.level <= e.depth.value <= v.level + 1)
    && (forall e :: e in v.pending && e.id !in v.inactive ==> DepthOf(v.depth, e.id) == e.depth.value)
    && (forall u :: u in v.visited ==> DepthOf(v.depth, u) <= v.level)
    && (forall u :: u in v.inactive ==> DepthOf(v.depth, u) <= v.level + 1)
  }

  ghost predicate Invariant(site: Site, v: View) {
    && Worklist(site, v) && DepthsSound(site, v)
    && (v.freshRun ==> ExactCounts(site, v.counts, v.frontierIds))
    && LinksHandled(site, v.followed, v.frontierIds, v.counts)
    && (Regular(v) ==> BreadthFirst(site, v) && LinksRelaxed(site, v.followed, v.frontierIds, v.depth))
  }

  // ---------- the start of a call ----------

  ghost function QueueOf(depth: map<UrlId, nat>, visited: set<UrlId>, seeds: seq<UrlId>): seq<Entry> {
    if seeds == [] then [] else
      var before, last := seeds[..|seeds| - 1], seeds[|seeds| - 1];
      QueueOf(depth, visited, before) +
      if last in visited then [] else [Entry(last, if last in depth then Some(depth[last]) else None)]
  }

  lemma {:induction false} QueueOfIds(depth: map<UrlId, nat>, visited: set<UrlId>, seeds: seq<UrlId>)
    requires Distinct(seeds)
    ensures Ids(QueueOf(depth, visited, seeds)) == Elements(seeds) - visited
    ensures DistinctIds(QueueOf(depth, visited, seeds))
  {
    if seeds != [] {
      var before, last := seeds[..|seeds| - 1], seeds[|seeds| - 1];
      QueueOfIds(depth, visited, before);
      assert last !in before && seeds == before + [last];
      assert Elements(seeds) == Elements(before) + {last};
      var q, e := QueueOf(depth, visited, before), Entry(last, if last in depth then Some(depth[last]) else None);
      if last in visited {
        assert q + [] == q;
      } else {
        EnqueueNew(q, e);
      }
    }
  }

  lemma {:induction false} QueueOfDepths(depth: map<UrlId, nat>, visited: set<UrlId>, seeds: seq<UrlId>, e: Entry)
    requires e in QueueOf(depth, visited, seeds)
    ensures e.depth == if e.id in depth then Some(depth[e.id]) else None
  {
    var before := seeds[..|seeds| - 1];
    if e in QueueOf(depth, visited, before) {
      QueueOfDepths(depth, visited, before, e);
    }
  }

  /** A fresh run whose only seed is the root. */
  ghost predicate SeededByRoot(site: Site, known: seq<UrlId>, resumed: bool) {
    !resumed && Seeds(site, known) == [site.root]
  }

  /** A fresh run clears all depths and puts the root at zero; a resumed one keeps what is stored. */
  ghost function InitialView(site: Site, known: seq<UrlId>, resumed: bool,
                             stored: map<UrlId, nat>, snapshots: set<UrlId>, log: seq<UrlId>,
                             witnesses: set<UrlId>): View
    requires Distinct(known)
  {
    var depth := if resumed then stored else map[site.root := 0];
    var visited := HtmlSnapshots(site, snapshots);
    var seeds := Seeds(site, known);
    var queue := QueueOf(depth, visited, seeds);
    View(depth, snapshots, queue, Ids(queue), visited, visited + Ids(queue), GroupCounts(site.group, seeds),
         snapshots - visited, if resumed then log else [], {}, {}, !resumed, SeededByRoot(site, known, resumed), 0,
         if resumed then witnesses else visited, 0, map[])
  }

  function GroupCounts(group: UrlId -> Option<Group>, urls: seq<UrlId>): (counts: map<Group, nat>)
    ensures forall g :: CountOf(counts, g) == InGroup(group, urls, g)
  {
    if urls == [] then map[] else
      var counts, g := GroupCounts(group, urls[..|urls| - 1]), group(urls[|urls| - 1]);
      if g.None? then counts else counts[g.value := CountOf(counts, g.value) + 1]
  }

  lemma StartCounts(site: Site, known: seq<UrlId>, g: Group)
    requires Distinct(known)
    ensures var s := Elements(Seeds(site, known));
            CountOf(GroupCounts(site.group, Seeds(site, known)), g) ==
              |Members(site.group, s, g)| <= MAX_QUERY_VARIANTS_PER_PATH
  {
    var eligible := Eligible(site, known);
    EligibleDistinct(site, known);
    FirstVariantsDistinct(site.group, eligible, MAX_QUERY_VARIANTS_PER_PATH);
    FirstVariantsCount(site.group, eligible, MAX_QUERY_VARIANTS_PER_PATH, g);
    InGroupCountsSet(site.group, Seeds(site, known), g);
  }

  lemma InitialCounts(site: Site, v: View, known: seq<UrlId>)
    requires Distinct(known)
    requires v.frontierIds == Elements(Seeds(site, known))
    requires v.counts == GroupCounts(site.group, Seeds(site, known))
    ensures ExactCounts(site, v.counts, v.frontierIds)
  {
    forall g ensures CountOf(v.counts, g) == |Members(site.group, v.frontierIds, g)| <= MAX_QUERY_VARIANTS_PER_PATH {
      StartCounts(site, known, g);
    }
  }

  lemma InitialQueue(site: Site, known: seq<UrlId>, depth: map<UrlId, nat>, visited: set<UrlId>)
    requires Distinct(known)
    ensures var q := QueueOf(depth, visited, Seeds(site, known));
            && DistinctIds(q) && Ids(q) == Elements(Seeds(site, known)) - visited
            && (forall e :: e in q ==> e.id in Ids(q))
            && (forall e :: e in q ==> e.depth == if e.id in depth then Some(depth[e.id]) else None)
  {
    EligibleDistinct(site, known);
    FirstVariantsDistinct(site.group, Eligible(site, known), MAX_QUERY_VARIANTS_PER_PATH);
    QueueOfIds(depth, visited, Seeds(site, known));
    forall e | e in QueueOf(depth, visited, Seeds(site, known))
      ensures e.id in Ids(QueueOf(depth, visited, Seeds(site, known)))
      ensures e.depth == if e.id in depth then Some(depth[e.id]) else None
    {
      QueueOfDepths(depth, visited, Seeds(site, known), e);
    }
  }

  lemma InitialBreadthFirst(site: Site, v: View)
    requires v.freshRun && v.depth == map[site.root := 0] && v.frontierIds == {site.root}
    requires v.visited == v.followed == v.inactive == {} && v.level == 0
    requires forall e :: e in v.pending ==> e == Entry(site.root, Some(0))
    ensures BreadthFirst(site, v) && LinksRelaxed(site, v.followed, v.frontierIds, v.depth)
  {
  }

  lemma InitialInvariant(site: Site, known: seq<UrlId>, resumed: bool,
                         stored: map<UrlId, nat>, snapshots: set<UrlId>, log: seq<UrlId>, witnesses: set<UrlId>)
    requires Distinct(known)
    requires if resumed then Stored(site, stored, snapshots, log, witnesses) else snapshots == {}
    ensures Invariant(site, InitialView(site, known, resumed, stored, snapshots, log, witnesses))
  {
    hide Worklist, DepthsSound, ExactCounts, BreadthFirst, Stored;
    var v := InitialView(site, known, resumed, stored, snapshots, log, witnesses);
    InitialWorklist(site, known, resumed, stored, snapshots, log, witnesses);
    InitialDepths(site, known, resumed, stored, snapshots, log, witnesses);
    InitialQueue(site, known, v.depth, v.visited);
    if !resumed {
      assert v.frontierIds == Elements(Seeds(site, known));
      InitialCounts(site, v, known);
    }
    if Regular(v) {
      assert v.frontierIds == {site.root};
      InitialBreadthFirst(site, v);
    }
  }

  lemma InitialWorklist(site: Site, known: seq<UrlId>, resumed: bool,
                        stored: map<UrlId, nat>, snapshots: set<UrlId>, log: seq<UrlId>, witnesses: set<UrlId>)
    requires Distinct(known)
    requires if resumed then Stored(site, stored, snapshots, log, witnesses) else snapshots == {}
    ensures Worklist(site, InitialView(site, known, resumed, stored, snapshots, log, witnesses))
  {
    var v := InitialView(site, known, resumed, stored, snapshots, log, witnesses);
    InitialQueue(site, known, v.depth, v.visited);
  }

  lemma InitialDepths(site: Site, known: seq<UrlId>, resumed: bool,
                      stored: map<UrlId, nat>, snapshots: set<UrlId>, log: seq<UrlId>, witnesses: set<UrlId>)
    requires Distinct(known)
    requires if resumed then Stored(site, stored, snapshots, log, witnesses) else snapshots == {}
    ensures DepthsSound(site, InitialView(site, known, resumed, stored, snapshots, log, witnesses))
  {
    var v := InitialView(site, known, resumed, stored, snapshots, log, witnesses);
    InitialQueue(site, known, v.depth, v.visited);
    if !resumed { RootReached(site, v.witnesses); }
  }

  // ---------- one iteration ----------

  ghost function AfterSort(v: View): View {
    v.(pending := Sort(v.pending, QueueLeq))
  }

  ghost function AfterPop(v: View): View
    requires v.pending != []
  {
    v.(pending := v.pending[1..], pendingIds := v.pendingIds - {v.pending[0].id})
  }

  ghost function AfterSkip(v: View, u: UrlId): View {
    v.(inactive := v.inactive + {u}, checks := v.checks + 1)
  }

  /** The depth a popped page is crawled with: the smaller of queued and stored, or none. */
  function CrawlDepth(depth: map<UrlId, nat>, head: Entry): Option<nat> {
    if head.depth.None? || head.id !in depth || head.depth.value <= depth[head.id] then head.depth
    else Some(depth[head.id])
  }

  ghost function AfterCrawl(v: View, head: Entry): View {
    var d := CrawlDepth(v.depth, head);
    v.(depth := if d.Some? then v.depth[head.id := d.value] else v.depth,
       visited := v.visited + {head.id},
       witnesses := v.witnesses + {head.id},
       snapshots := v.snapshots + {head.id},
       log := v.log + [head.id],
       level := if d.Some? then d.value else v.level,
       crawledAt := if d.Some? then v.crawledAt[head.id := d.value] else v.crawledAt)
  }

  /** A link from a page at depth d lowers the stored depth of its target, or sets it. */
  function LowerDepth(depth: map<UrlId, nat>, d: Option<nat>, t: UrlId): map<UrlId, nat> {
    if d.Some? && (t !in depth || d.value + 1 < depth[t]) then depth[t := d.value + 1] else depth
  }

  function LinkEntry(d: Option<nat>, t: UrlId): Entry {
    Entry(t, if d.Some? then Some(d.value + 1) else None)
  }

  ghost function AfterPage(site: Site, v: View, d: Option<nat>, t: UrlId): View {
    var g := site.group(t);
    var enqueue := t !in v.visited && t !in v.pendingIds;
    v.(depth := LowerDepth(v.depth, d, t),
       frontierIds := v.frontierIds + {t},
       counts := if g.Some? && t !in v.frontierIds then v.counts[g.value := CountOf(v.counts, g.value) + 1]
         else v.counts,
       pending := if enqueue then v.pending + [LinkEntry(d, t)] else v.pending,
       pendingIds := if enqueue then v.pendingIds + {t} else v.pendingIds)
  }

  /** A link to a new URL whose variant group is full is dropped. */
  predicate Capped(site: Site, frontierIds: set<UrlId>, counts: map<Group, nat>, t: UrlId) {
    site.group(t).Some? && t !in frontierIds && CountOf(counts, site.group(t).value) >= MAX_QUERY_VARIANTS_PER_PATH
  }

  /** What following one link does; d is the depth of the page the link is on. */
  ghost function AfterLink(site: Site, v: View, d: Option<nat>, t: UrlId): View {
    if Capped(site, v.frontierIds, v.counts, t) then v
    else if !site.html(t) then
      v.(auditedAssets := v.auditedAssets + {t}, snapshots := v.snapshots + {t})
    else AfterPage(site, v, d, t)
  }

  ghost function AfterLinks(site: Site, v: View, d: Option<nat>, ts: seq<UrlId>): View {
    if ts == [] then v
    else AfterLink(site, AfterLinks(site, v, d, ts[..|ts| - 1]), d, ts[|ts| - 1])
  }

  // ---------- every step keeps the invariant ----------

  lemma QueueEntries(site: Site, v: View, w: View)
    requires BreadthFirst(site, v)
    requires forall e :: e in w.pending ==> e in v.pending
    requires w.(pending := v.pending, pendingIds := v.pendingIds) == v
    ensures BreadthFirst(site, w)
  {
  }

  lemma SortKeeps(site: Site, v: View)
    requires Invariant(site, v)
    ensures Invariant(site, AfterSort(v)) && SortedBy(AfterSort(v).pending, QueueLeq)
  {
    SortedQueue(v.pending);
    if Regular(v) {
      QueueEntries(site, v, AfterSort(v));
    }
  }

  lemma SkipKeeps(site: Site, v: View)
    requires Invariant(site, v) && v.pending != []
    ensures Invariant(site, AfterSkip(AfterPop(v), v.pending[0].id))
  {
    var head := v.pending[0];
    Dequeue(v.pending);
    var w := AfterSkip(AfterPop(v), head.id);
    assert head in v.pending && forall e :: e in w.pending ==> e in v.pending;
    assert w.frontierIds == v.frontierIds == w.visited + w.pendingIds + w.inactive;
    if Regular(w) {
      QueueEntries(site, v, AfterPop(v));
    }
  }

  lemma CrawlWorklist(site: Site, v: View)
    requires Worklist(site, v) && v.pending != []
    ensures Worklist(site, AfterCrawl(AfterPop(v), v.pending[0]))
  {
    var head := v.pending[0];
    Dequeue(v.pending);
    var w := AfterCrawl(AfterPop(v), head);
    assert head in v.pending;
    assert w.visited == HtmlSnapshots(site, w.snapshots);
    assert head.id !in v.log;
    DistinctSnoc(v.log, head.id);
    assert Elements(w.log) == Elements(v.log) + {head.id};
  }

  lemma CrawlDepths(site: Site, v: View)
    requires Worklist(site, v) && DepthsSound(site, v) && v.pending != []
    ensures DepthsSound(site, AfterCrawl(AfterPop(v), v.pending[0]))
  {
    var head := v.pending[0];
    var w := AfterCrawl(AfterPop(v), head);
    assert head in v.pending && v.witnesses <= w.witnesses;
    forall u | u in w.depth ensures ReachedIn(site, w.witnesses, u, w.depth[u]) {
      assert w.depth == v.depth;
      ReachedMonotone(site, v.witnesses, w.witnesses, u, v.depth[u]);
    }
    forall e | e in w.pending && e.depth.Some?
      ensures e.id in w.depth && w.depth[e.id] <= e.depth.value && ReachedIn(site, w.witnesses, e.id, e.depth.value)
    {
      assert e in v.pending;
      ReachedMonotone(site, v.witnesses, w.witnesses, e.id, e.depth.value);
    }
  }

  lemma CrawlBreadthFirst(site: Site, v: View)
    requires Worklist(site, v) && DepthsSound(site, v) && v.pending != []
    requires SortedBy(v.pending, QueueLeq)
    requires Regular(AfterCrawl(AfterPop(v), v.pending[0]))
    requires BreadthFirst(site, v)
    ensures var w := AfterCrawl(AfterPop(v), v.pending[0]);
            BreadthFirst(site, w) && CrawlDepth(v.depth, v.pending[0]) == Some(w.level) &&
              DepthOf(w.depth, v.pending[0].id) == w.level
  {
    var head := v.pending[0];
    var w := AfterCrawl(AfterPop(v), head);
    assert head in v.pending && head.id in v.pendingIds && head.id in w.visited && head.id !in v.inactive;
    assert w.depth == v.depth && w.level == head.depth.value;
    forall e | e in w.pending ensures e in v.pending && QueueLeq(head, e) {
      var i :| 0 <= i < |w.pending| && w.pending[i] == e;
      assert v.pending[i + 1] == e;
    }
  }

  lemma CrawlKeeps(site: Site, v: View)
    requires Invariant(site, v) && v.pending != [] && SortedBy(v.pending, QueueLeq)
    ensures var w, head := AfterCrawl(AfterPop(v), v.pending[0]), v.pending[0];
            && Invariant(site, w)
            && head.id !in v.visited && w.depth == v.depth && w.frontierIds == v.frontierIds
            && (CrawlDepth(v.depth, head).Some? ==>
                ReachedIn(site, w.witnesses, head.id, CrawlDepth(v.depth, head).value))
            && (Regular(w) ==> CrawlDepth(v.depth, head) == Some(w.level) && DepthOf(w.depth, head.id) == w.level)
  {
    var head := v.pending[0];
    var w := AfterCrawl(AfterPop(v), head);
    CrawlWorklist(site, v);
    CrawlDepths(site, v);
    assert w.depth == v.depth && w.frontierIds == v.frontierIds by { assert head in v.pending; }
    if Regular(w) {
      CrawlBreadthFirst(site, v);
    }
    if CrawlDepth(v.depth, head).Some? {
      assert head in v.pending && head.id in v.depth;
    }
  }
}
