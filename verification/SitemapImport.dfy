/**
 The sitemap import worklist: starting from configured and robots.txt sitemaps (or the fallback
 location), fetch documents and queue the valid in-scope children of sitemap indexes.
 */
module SitemapImport {
  import opened Sorting

  type Location = string

  /** A fetch either gives a parsed document or fails (fetch error, HTTP status, bad XML). */
  datatype Fetched = Document(children: seq<Location>, urls: seq<Location>) | Unreadable

  datatype Web = Web(
    fetch: Location -> Fetched,
    absoluteHttp: Location -> bool,
    inScope: Location -> bool)

  /** Where sitemaps may be listed, and the conventional location tried when none is. */
  datatype Sources = Sources(configured: seq<Location>, robots: seq<Location>, fallback: Location)

  datatype ImportResult =
    | Raised(location: Location)
    | Imported(documents: nat, complete: bool, remainingDocuments: nat)

  const MAX_SITEMAP_DOCUMENTS: nat := 1000

  predicate Eligible(web: Web, location: Location) {
    web.absoluteHttp(location) && web.inScope(location)
  }

  /** What comes earlier in r also came up earlier in the list. */
  ghost predicate ListOrder(locations: seq<Location>, r: seq<Location>) {
    forall i, j, b :: 0 <= i < j < |r| && 0 <= b < |locations| && locations[b] == r[j] ==> r[i] in locations[..b]
  }

  /** The first occurrences, in order, of the locations that may be fetched. */
  function EligibleOnce(web: Web, locations: seq<Location>): (r: seq<Location>)
    ensures Distinct(r)
    ensures forall l :: l in r <==> l in locations && Eligible(web, l)
    ensures ListOrder(locations, r)
  {
    if locations == [] then [] else
      var before, last := locations[..|locations| - 1], locations[|locations| - 1];
      assert locations == before + [last];
      var r := EligibleOnce(web, before);
      if Eligible(web, last) && last !in before then
        OrderSnoc(before, r, last);
        r + [last]
      else
        OrderOn(before, r, last);
        r
  }

  lemma OrderOn(before: seq<Location>, r: seq<Location>, last: Location)
    requires ListOrder(before, r) && forall l :: l in r ==> l in before
    ensures ListOrder(before + [last], r)
  {
    var list := before + [last];
    forall i, j, b | 0 <= i < j < |r| && 0 <= b < |list| && list[b] == r[j] ensures r[i] in list[..b] {
      if b < |before| {
        assert list[..b] == before[..b];
      } else {
        assert list[..b] == before;
      }
    }
  }

  lemma OrderSnoc(before: seq<Location>, r: seq<Location>, last: Location)
    requires ListOrder(before, r) && last !in before && forall l :: l in r ==> l in before
    ensures ListOrder(before + [last], r + [last])
  {
    var list, r' := before + [last], r + [last];
    OrderOn(before, r, last);
    forall i, j, b | 0 <= i < j < |r'| && 0 <= b < |list| && list[b] == r'[j] ensures r'[i] in list[..b] {
      if j == |r| {
        assert b == |before| && list[..b] == before;
      }
    }
  }

  /** No location is listed that may be fetched, so that the fallback location is tried. */
  ghost predicate NoneListed(web: Web, sources: Sources) {
    forall l :: l in sources.configured || l in sources.robots ==> !web.absoluteHttp(l) || !web.inScope(l)
  }

  /** The locations an import starts from: the listed ones that may be fetched, or the fallback. */
  ghost predicate Start(web: Web, sources: Sources, l: Location) {
    if NoneListed(web, sources) then l == sources.fallback
    else (l in sources.configured || l in sources.robots) && web.absoluteHttp(l) && web.inScope(l)
  }

  /** The documents an import starts from. */
  function Roots(web: Web, sources: Sources): (r: seq<Location>)
    ensures Distinct(r) && r != []
  {
    var listed := EligibleOnce(web, sources.configured + sources.robots);
    if listed == [] then [sources.fallback] else listed
  }

  lemma RootsAreStarts(web: Web, sources: Sources)
    ensures forall l :: l in Roots(web, sources) <==> Start(web, sources, l)
    ensures forall u :: Tolerated(web, sources, u) <==> NoneListed(web, sources) && u == sources.fallback
    ensures NoneListed(web, sources) || ListOrder(sources.configured + sources.robots, Roots(web, sources))
  {
    var listed := EligibleOnce(web, sources.configured + sources.robots);
    if listed != [] {
      assert listed[0] in listed && Eligible(web, listed[0]);
      assert !NoneListed(web, sources);
    } else {
      forall l | l in sources.configured || l in sources.robots ensures !Eligible(web, l) {
        assert l !in listed;
      }
    }
  }

  /** Only the unlisted fallback location may be unreadable without failing the import. */
  predicate Tolerated(web: Web, sources: Sources, u: Location) {
    EligibleOnce(web, sources.configured + sources.robots) == [] && u == sources.fallback
  }

  predicate IsRootDocument(web: Web, sources: Sources, u: Location) {
    web.fetch(u).Document? && (u in sources.configured || u in sources.robots || u == sources.fallback)
  }

  /** c is a child that may be fetched of the parsed document at u. */
  ghost predicate Child(web: Web, u: Location, c: Location) {
    web.fetch(u).Document? && c in web.fetch(u).children && web.absoluteHttp(c) && web.inScope(c)
  }

  ghost predicate ChildPath(web: Web, roots: seq<Location>, p: seq<Location>) {
    p != [] && p[0] in roots && forall i :: 0 <= i < |p| - 1 ==> Child(web, p[i], p[i + 1])
  }

  /** u is a root, or nested under one through parsed sitemap indexes. */
  ghost predicate Reachable(web: Web, roots: seq<Location>, u: Location) {
    exists p :: ChildPath(web, roots, p) && p[|p| - 1] == u
  }

  /** Every fetchable child of every parsed document of s is in t. */
  ghost predicate ChildrenIn(web: Web, s: set<Location>, t: set<Location>) {
    forall u, c :: u in s && Child(web, u, c) ==> c in t
  }

  lemma ReachableRoot(web: Web, roots: seq<Location>, u: Location)
    requires u in roots
    ensures Reachable(web, roots, u)
  {
    assert ChildPath(web, roots, [u]);
  }

  lemma ReachableChild(web: Web, roots: seq<Location>, u: Location, c: Location)
    requires Reachable(web, roots, u) && Child(web, u, c)
    ensures Reachable(web, roots, c)
  {
    var p :| ChildPath(web, roots, p) && p[|p| - 1] == u;
    assert ChildPath(web, roots, p + [c]);
    assert (p + [c])[|p|] == c;
  }

  /** A set that holds the roots and is closed under children holds everything reachable. */
  lemma {:induction false} ClosedHoldsPath(web: Web, roots: seq<Location>, s: set<Location>, p: seq<Location>)
    requires Elements(roots) <= s && ChildrenIn(web, s, s) && ChildPath(web, roots, p)
    ensures p[|p| - 1] in s
  {
    if |p| == 1 {
      assert p[0] in Elements(roots);
    } else {
      var q := p[..|p| - 1];
      assert ChildPath(web, roots, q);
      ClosedHoldsPath(web, roots, s, q);
      assert Child(web, q[|q| - 1], p[|p| - 1]);
    }
  }

  /** The worklist invariant: what is queued is exactly what was fetched or still waits. */
  ghost predicate Worklist(web: Web, roots: seq<Location>, pending: seq<Location>, queued: set<Location>,
                           visited: set<Location>) {
    && Distinct(pending)
    && visited !! Elements(pending) && queued == visited + Elements(pending)
    && Elements(roots) <= queued
    && ChildrenIn(web, visited, queued)
    && (forall u :: u in queued ==> Reachable(web, roots, u))
  }

  /** The import is complete exactly when every root and every fetchable child was fetched. */
  lemma CompleteIff(web: Web, roots: seq<Location>, pending: seq<Location>, queued: set<Location>,
                    visited: set<Location>)
    requires Worklist(web, roots, pending, queued, visited)
    ensures pending == [] <==> Elements(roots) <= visited && ChildrenIn(web, visited, visited)
    ensures pending == [] ==> forall u :: u in visited <==> Reachable(web, roots, u)
    ensures |visited| + |pending| == |queued|
  {
    DistinctSize(pending);
    if Elements(roots) <= visited && ChildrenIn(web, visited, visited) {
      forall u | Reachable(web, roots, u) ensures u in visited {
        var p :| ChildPath(web, roots, p) && p[|p| - 1] == u;
        ClosedHoldsPath(web, roots, visited, p);
      }
      assert |Elements(pending)| == 0 by { assert Elements(pending) <= visited; }
    }
    if pending == [] { assert visited == queued; }
  }

  /**
   Queues the fetchable children of the document at u that were not queued before. `invalid` is the
   quality report's set of locations that are no absolute HTTP URL, this document's included.
   */
  method QueueChildren(web: Web, ghost roots: seq<Location>, u: Location, children: seq<Location>,
                       invalid: set<Location>,
                       pending: seq<Location>, queued: set<Location>, ghost visited: set<Location>)
    returns (pending': seq<Location>, queued': set<Location>)
    requires web.fetch(u).Document? && web.fetch(u).children == children
    requires forall l :: l in invalid ==> !web.absoluteHttp(l)
    requires forall c :: c in children && !web.absoluteHttp(c) ==> c in invalid
    requires u in queued && u !in visited && u !in pending
    requires Worklist(web, roots, [u] + pending, queued, visited)
    ensures Worklist(web, roots, pending', queued', visited + {u})
    ensures Appended(web, u, pending, pending', queued)
  {
    pending', queued' := pending, queued;
    PopHead(web, roots, u, pending, queued, visited);
    for i := 0 to |children|
      invariant PartlyQueued(web, roots, u, children[..i], pending', queued', visited)
      invariant Appended(web, u, pending, pending', queued) && queued <= queued'
    {
      var child := children[i];
      assert children[..i + 1] == children[..i] + [child];
      if child in invalid || child in queued' || !web.inScope(child) {
        continue;
      }
      assert Child(web, u, child);
      QueueOne(web, roots, u, children[..i], child, pending', queued', visited);
      pending' := pending' + [child];
      queued' := queued' + {child};
    }
    assert children[..|children|] == children;
  }

  /** Only children of u that were not queued before are added, after all that waited. */
  ghost predicate Appended(web: Web, u: Location, pending: seq<Location>, pending': seq<Location>,
                           queued: set<Location>) {
    && pending <= pending'
    && forall i :: |pending| <= i < |pending'| ==> Child(web, u, pending'[i]) && pending'[i] !in queued
  }

  /** Part-way through a document's children: only the first ones are known to be queued. */
  ghost predicate PartlyQueued(web: Web, roots: seq<Location>, u: Location, done: seq<Location>,
                               pending: seq<Location>, queued: set<Location>, visited: set<Location>) {
    && Distinct(pending) && u in queued && u !in visited && u !in pending
    && visited !! Elements(pending) && queued == visited + {u} + Elements(pending)
    && Elements(roots) <= queued && ChildrenIn(web, visited, queued)
    && (forall l :: l in queued ==> Reachable(web, roots, l))
    && (forall c :: c in done && Eligible(web, c) ==> c in queued)
  }

  lemma PopHead(web: Web, roots: seq<Location>, u: Location, pending: seq<Location>, queued: set<Location>,
                visited: set<Location>)
    requires u in queued && u !in visited && u !in pending
    requires Worklist(web, roots, [u] + pending, queued, visited)
    ensures PartlyQueued(web, roots, u, [], pending, queued, visited)
  {
    assert Elements([u] + pending) == {u} + Elements(pending);
    forall i, j | 0 <= i < j < |pending| ensures pending[i] != pending[j] {
      assert ([u] + pending)[i + 1] != ([u] + pending)[j + 1];
    }
  }

  lemma QueueOne(web: Web, roots: seq<Location>, u: Location, done: seq<Location>, child: Location,
                 pending: seq<Location>, queued: set<Location>, visited: set<Location>)
    requires PartlyQueued(web, roots, u, done, pending, queued, visited)
    requires child !in queued && Child(web, u, child)
    ensures PartlyQueued(web, roots, u, done + [child], pending + [child], queued + {child}, visited)
  {
    ReachableChild(web, roots, u, child);
    assert child !in Elements(pending);
    DistinctSnoc(pending, child);
    assert Elements(pending + [child]) == Elements(pending) + {child};
  }

  /** A document that could not be read has no children, so it is done when fetched. */
  lemma UnreadableDone(web: Web, sources: Sources, u: Location, rest: seq<Location>, queued: set<Location>,
                       visited: set<Location>,
                       invalid: set<Location>, successfulRoots: seq<Location>)
    requires web.fetch(u).Unreadable? && Tolerated(web, sources, u) && |visited| < MAX_SITEMAP_DOCUMENTS
    requires Importing(web, sources, [u] + rest, queued, visited, invalid, successfulRoots)
    ensures Importing(web, sources, rest, queued, visited + {u}, invalid, successfulRoots)
  {
    hide Worklist, Roots, EligibleOnce, Tolerated;
    HeadFresh(web, Roots(web, sources), [u] + rest, queued, visited);
    assert ([u] + rest)[1..] == rest;
    UnreadablePopped(web, Roots(web, sources), u, rest, queued, visited);
  }

  lemma UnreadablePopped(web: Web, roots: seq<Location>, u: Location, rest: seq<Location>, queued: set<Location>,
                         visited: set<Location>)
    requires u in queued && u !in visited && u !in rest && web.fetch(u).Unreadable?
    requires Worklist(web, roots, [u] + rest, queued, visited)
    ensures Worklist(web, roots, rest, queued, visited + {u})
  {
    PopHead(web, roots, u, rest, queued, visited);
  }

  /** The state of an import that has read `visited` without failing. */
  ghost predicate Importing(web: Web, sources: Sources, pending: seq<Location>, queued: set<Location>,
                            visited: set<Location>,
                            invalid: set<Location>, successfulRoots: seq<Location>) {
    && Worklist(web, Roots(web, sources), pending, queued, visited)
    && |visited| <= MAX_SITEMAP_DOCUMENTS
    && (forall l :: l in invalid ==> !web.absoluteHttp(l))
    && (forall u :: u in visited && web.fetch(u).Unreadable? ==> Tolerated(web, sources, u))
    && RootsRecorded(web, sources, visited, successfulRoots)
  }

  /** The recorded roots are the listed or fallback documents that were fetched and parsed. */
  ghost predicate RootsRecorded(web: Web, sources: Sources, visited: set<Location>, successfulRoots: seq<Location>) {
    forall u :: u in successfulRoots <==> u in visited && IsRootDocument(web, sources, u)
  }

  lemma RecordRoot(web: Web, sources: Sources, visited: set<Location>, successfulRoots: seq<Location>, u: Location)
    requires RootsRecorded(web, sources, visited, successfulRoots)
    ensures RootsRecorded(web, sources, visited + {u},
                          if IsRootDocument(web, sources, u) then successfulRoots + [u] else successfulRoots)
  {
  }

  /** The locations of a list that are no absolute HTTP URL. */
  function InvalidOf(web: Web, locations: seq<Location>): (r: set<Location>)
    ensures forall l :: l in r <==> l in locations && !web.absoluteHttp(l)
  {
    set l | l in locations && !web.absoluteHttp(l)
  }

  method StartImport(web: Web, sources: Sources)
    returns (pending: seq<Location>, queued: set<Location>, invalid: set<Location>)
    ensures pending == Roots(web, sources)
    ensures Importing(web, sources, pending, queued, {}, invalid, [])
  {
    pending := EligibleOnce(web, sources.configured + sources.robots);
    if pending == [] {
      pending := [sources.fallback];
    }
    queued := set l | l in pending;
    invalid := InvalidOf(web, sources.configured);
    assert pending == Roots(web, sources) && queued == Elements(pending);
    hide EligibleOnce, Roots, Worklist;
    StartWorklist(web, pending);
  }

  lemma StartWorklist(web: Web, roots: seq<Location>)
    requires Distinct(roots)
    ensures Worklist(web, roots, roots, Elements(roots), {})
  {
    forall u | u in Elements(roots) ensures Reachable(web, roots, u) { ReachableRoot(web, roots, u); }
  }

  /** Reads the document at the head of the queue. */
  method ReadDocument(web: Web, sources: Sources, u: Location, rest: seq<Location>, queued: set<Location>,
                      ghost visited: set<Location>,
                      invalid: set<Location>, successfulRoots: seq<Location>)
    returns (pending': seq<Location>, queued': set<Location>, invalid': set<Location>, successfulRoots': seq<Location>)
    requires web.fetch(u).Document? && |visited| < MAX_SITEMAP_DOCUMENTS
    requires Importing(web, sources, [u] + rest, queued, visited, invalid, successfulRoots)
    ensures Importing(web, sources, pending', queued', visited + {u}, invalid', successfulRoots')
    ensures Appended(web, u, rest, pending', queued)
  {
    HeadFresh(web, Roots(web, sources), [u] + rest, queued, visited);
    assert ([u] + rest)[1..] == rest;
    RecordRoot(web, sources, visited, successfulRoots, u);
    hide Worklist, Roots, EligibleOnce, Tolerated, InvalidOf, RootsRecorded, IsRootDocument;
    var document := web.fetch(u);
    invalid' := invalid + InvalidOf(web, document.children + document.urls);
    successfulRoots' := if IsRootDocument(web, sources, u) then successfulRoots + [u] else successfulRoots;
    pending', queued' := QueueChildren(web, Roots(web, sources), u, document.children, invalid', rest, queued, visited);
  }

  /** Reads the next location; an unreadable one fails the import unless it is tolerated. */
  method ReadNext(web: Web, sources: Sources, u: Location, rest: seq<Location>, queued: set<Location>,
                  ghost visited: set<Location>,
                  invalid: set<Location>, successfulRoots: seq<Location>)
    returns (failed: bool, pending': seq<Location>, queued': set<Location>, invalid': set<Location>,
             successfulRoots': seq<Location>)
    requires |visited| < MAX_SITEMAP_DOCUMENTS
    requires Importing(web, sources, [u] + rest, queued, visited, invalid, successfulRoots)
    ensures failed <==> web.fetch(u).Unreadable? && !Tolerated(web, sources, u)
    ensures !failed ==> Importing(web, sources, pending', queued', visited + {u}, invalid', successfulRoots')
    ensures Appended(web, u, rest, pending', queued)
  {
    hide Importing;
    failed := false;
    if web.fetch(u).Unreadable? {
      failed := !Tolerated(web, sources, u);
      if !failed {
        UnreadableDone(web, sources, u, rest, queued, visited, invalid, successfulRoots);
      }
      pending', queued', invalid', successfulRoots' := rest, queued, invalid, successfulRoots;
    } else {
      pending', queued', invalid', successfulRoots' :=
        ReadDocument(web, sources, u, rest, queued, visited, invalid, successfulRoots);
    }
  }

  // ---------- the order of the fetches ----------

  /** The import starts from l, or one of the documents lists it. */
  ghost predicate Named(web: Web, sources: Sources, documents: seq<Location>, l: Location) {
    Start(web, sources, l) || exists u :: u in documents && Child(web, u, l)
  }

  /** What the first documents named comes before all they did not name. */
  ghost predicate NamedFirst(web: Web, sources: Sources, documents: seq<Location>, all: seq<Location>) {
    forall i, j :: 0 <= i < j < |all| && Named(web, sources, documents, all[j]) ==>
      Named(web, sources, documents, all[i])
  }

  /** First come, first served: whatever was named earlier is fetched earlier. */
  ghost predicate InTurn(web: Web, sources: Sources, fetched: seq<Location>, all: seq<Location>) {
    && (forall l :: l in all ==> Named(web, sources, fetched, l))
    && forall n :: 0 <= n <= |fetched| ==> NamedFirst(web, sources, fetched[..n], all)
  }

  lemma StartsInTurn(web: Web, sources: Sources, roots: seq<Location>)
    requires forall l :: l in roots ==> Start(web, sources, l)
    ensures InTurn(web, sources, [], roots)
  {
  }

  /** What is appended was named by nobody before u. */
  lemma AppendedUnnamed(web: Web, sources: Sources, fetched: seq<Location>, n: nat, queued: set<Location>, l: Location)
    requires n <= |fetched| && ChildrenIn(web, Elements(fetched), queued) && l !in queued
    requires forall k :: Start(web, sources, k) ==> k in queued
    ensures !Named(web, sources, fetched[..n], l)
  {
    forall u | u in fetched[..n] ensures !Child(web, u, l) {
      assert u in Elements(fetched);
    }
  }

  lemma NextInTurn(web: Web, sources: Sources, fetched: seq<Location>, u: Location, rest: seq<Location>,
                   pending': seq<Location>, queued: set<Location>)
    requires InTurn(web, sources, fetched, fetched + ([u] + rest))
    requires Appended(web, u, rest, pending', queued)
    requires ChildrenIn(web, Elements(fetched), queued) && forall k :: Start(web, sources, k) ==> k in queued
    ensures InTurn(web, sources, fetched + [u], fetched + [u] + pending')
  {
    var before, fetched', after := fetched + ([u] + rest), fetched + [u], fetched + [u] + pending';
    assert before == fetched + [u] + rest;
    assert |before| <= |after| && before == after[..|before|];
    forall i | 0 <= i < |after| ensures Named(web, sources, fetched', after[i]) {
      if i < |before| {
        assert after[i] == before[i] && before[i] in before;
        NamedMore(web, sources, fetched, u, before[i]);
      } else {
        assert after[i] == pending'[i - |fetched'|];
        assert u in fetched';
      }
    }
    forall n | 0 <= n <= |fetched'| ensures NamedFirst(web, sources, fetched'[..n], after) {
      if n <= |fetched| {
        assert fetched'[..n] == fetched[..n];
        assert NamedFirst(web, sources, fetched[..n], before);
        forall j | |before| <= j < |after| ensures !Named(web, sources, fetched[..n], after[j]) {
          assert after[j] == pending'[j - |fetched'|];
          AppendedUnnamed(web, sources, fetched, n, queued, after[j]);
        }
      } else {
        assert fetched'[..n] == fetched';
      }
    }
  }

  lemma NamedMore(web: Web, sources: Sources, documents: seq<Location>, u: Location, l: Location)
    requires Named(web, sources, documents, l)
    ensures Named(web, sources, documents + [u], l)
  {
  }

  lemma PrefixInTurn(web: Web, sources: Sources, fetched: seq<Location>, pending: seq<Location>)
    requires InTurn(web, sources, fetched, fetched + pending)
    ensures InTurn(web, sources, fetched, fetched)
  {
    var all := fetched + pending;
    assert fetched == all[..|fetched|];
    forall n | 0 <= n <= |fetched| ensures NamedFirst(web, sources, fetched[..n], fetched) {
      assert NamedFirst(web, sources, fetched[..n], all);
    }
  }

  /** Every document lies on a path of children that starts where an import starts. */
  ghost predicate Nested(web: Web, sources: Sources, u: Location) {
    exists p :: ListedPath(web, sources, p) && p[|p| - 1] == u
  }

  ghost predicate ListedPath(web: Web, sources: Sources, p: seq<Location>) {
    p != [] && Start(web, sources, p[0]) && forall i :: 0 <= i < |p| - 1 ==> Child(web, p[i], p[i + 1])
  }

  lemma ReachableNested(web: Web, sources: Sources, u: Location)
    requires Reachable(web, Roots(web, sources), u)
    ensures Nested(web, sources, u)
  {
    hide Roots, Start;
    RootsAreStarts(web, sources);
    var p :| ChildPath(web, Roots(web, sources), p) && p[|p| - 1] == u;
    assert ListedPath(web, sources, p);
  }

  /** Listed locations are fetched in the order of the lists, the configured ones first. */
  ghost predicate OrderOfStarts(web: Web, sources: Sources, fetched: seq<Location>) {
    var list := sources.configured + sources.robots;
    forall i, j, b ::
      0 <= i < j < |fetched| && 0 <= b < |list| && list[b] == fetched[j] ==>
        Start(web, sources, fetched[i]) && Start(web, sources, fetched[j]) ==> fetched[i] in list[..b]
  }

  /** What is known of the fetches while an import runs. */
  ghost predicate Fetching(web: Web, sources: Sources, fetched: seq<Location>, pending: seq<Location>,
                           visited: set<Location>) {
    && Distinct(fetched) && Elements(fetched) == visited
    && Roots(web, sources) <= fetched + pending
    && InTurn(web, sources, fetched, fetched + pending)
  }

  lemma NothingFetched(web: Web, sources: Sources)
    ensures Fetching(web, sources, [], Roots(web, sources), {})
  {
    hide Roots, Start;
    RootsAreStarts(web, sources);
    StartsInTurn(web, sources, Roots(web, sources));
    assert [] + Roots(web, sources) == Roots(web, sources);
  }

  /** One more fetch, read or not. */
  lemma FetchedNext(web: Web, sources: Sources, fetched: seq<Location>, u: Location, rest: seq<Location>,
                    pending': seq<Location>, queued: set<Location>, visited: set<Location>)
    requires Fetching(web, sources, fetched, [u] + rest, visited) && u !in visited
    requires Worklist(web, Roots(web, sources), [u] + rest, queued, visited)
    requires Appended(web, u, rest, pending', queued)
    ensures Fetching(web, sources, fetched + [u], pending', visited + {u})
  {
    hide Roots, Start, InTurn, Distinct;
    RootsAreStarts(web, sources);
    forall k | Start(web, sources, k) ensures k in queued {
      assert k in Elements(Roots(web, sources));
    }
    NextInTurn(web, sources, fetched, u, rest, pending', queued);
    assert u !in fetched by { assert u !in Elements(fetched); }
    DistinctSnoc(fetched, u);
    ElementsSnoc(fetched, u);
    assert fetched + ([u] + rest) <= fetched + [u] + pending';
  }

  lemma AllDistinct(fetched: seq<Location>, pending: seq<Location>)
    requires Distinct(fetched) && Distinct(pending) && Elements(fetched) !! Elements(pending)
    ensures Distinct(fetched + pending)
  {
    forall i, j | 0 <= i < |fetched| && 0 <= j < |pending| ensures fetched[i] != pending[j] {
      assert fetched[i] in Elements(fetched) && pending[j] in Elements(pending);
    }
  }

  lemma ListedInOrder(web: Web, sources: Sources, all: seq<Location>)
    requires !NoneListed(web, sources) && Distinct(all) && Roots(web, sources) <= all
    ensures OrderOfStarts(web, sources, all)
  {
    var roots, list := Roots(web, sources), sources.configured + sources.robots;
    RootsAreStarts(web, sources);
    hide Roots, NoneListed, Start;
    forall i, j, b |
      && 0 <= i < j < |all| && Start(web, sources, all[i]) && Start(web, sources, all[j])
      && 0 <= b < |list| && list[b] == all[j]
      ensures all[i] in list[..b]
    {
      assert all[j] in roots;
      var r :| 0 <= r < |roots| && roots[r] == all[j];
      assert all[r] == all[j];
      assert roots[i] == all[i] && roots[j] == all[j];
    }
  }

  /** What the state of a running import says about its fetches. */
  lemma ImportFacts(web: Web, sources: Sources, fetched: seq<Location>, pending: seq<Location>,
                    queued: set<Location>, visited: set<Location>, invalid: set<Location>,
                    successfulRoots: seq<Location>)
    requires Importing(web, sources, pending, queued, visited, invalid, successfulRoots)
    requires Fetching(web, sources, fetched, pending, visited)
    ensures Worklist(web, Roots(web, sources), pending, queued, visited) && |visited| <= 1000
    ensures forall u :: u in visited ==> Nested(web, sources, u)
    ensures pending != [] ==> pending[0] !in visited && Nested(web, sources, pending[0])
    ensures NoneListed(web, sources) || OrderOfStarts(web, sources, fetched + pending)
  {
    hide NoneListed, Nested, Reachable, Tolerated, Roots, RootsRecorded, OrderOfStarts, InTurn;
    assert Worklist(web, Roots(web, sources), pending, queued, visited);
    AllDistinct(fetched, pending);
    if !NoneListed(web, sources) {
      ListedInOrder(web, sources, fetched + pending);
    }
    forall u | u in queued ensures Nested(web, sources, u) {
      ReachableNested(web, sources, u);
    }
    if pending != [] { HeadFresh(web, Roots(web, sources), pending, queued, visited); }
  }

  /** Among what was fetched, exactly what is not tolerated fails the import. */
  lemma NoneFailed(web: Web, sources: Sources, pending: seq<Location>, queued: set<Location>, visited: set<Location>,
                   invalid: set<Location>, successfulRoots: seq<Location>)
    requires Importing(web, sources, pending, queued, visited, invalid, successfulRoots)
    ensures forall u :: u in visited && web.fetch(u).Unreadable? ==> NoneListed(web, sources) && u == sources.fallback
    ensures forall u :: Tolerated(web, sources, u) <==> NoneListed(web, sources) && u == sources.fallback
  {
    hide Worklist, Roots, RootsRecorded, NoneListed, Tolerated;
    RootsAreStarts(web, sources);
  }

  lemma OrderOfPrefix(web: Web, sources: Sources, all: seq<Location>, fetched: seq<Location>)
    requires NoneListed(web, sources) || OrderOfStarts(web, sources, all)
    requires fetched <= all
    ensures NoneListed(web, sources) || OrderOfStarts(web, sources, fetched)
  {
    hide Start, NoneListed;
    assert forall i | 0 <= i < |fetched| :: fetched[i] == all[i];
  }

  /** What is queued when an import ends. */
  lemma QueuedNamed(web: Web, sources: Sources, fetched: seq<Location>, pending: seq<Location>,
                    queued: set<Location>, visited: set<Location>)
    requires Worklist(web, Roots(web, sources), pending, queued, visited)
    requires Fetching(web, sources, fetched, pending, visited)
    ensures forall l :: l in queued <==> Named(web, sources, fetched, l)
    ensures |visited| + |pending| == |queued|
  {
    hide Roots, Start, Reachable, NamedFirst;
    RootsAreStarts(web, sources);
    CompleteIff(web, Roots(web, sources), pending, queued, visited);
    forall l | l in queued ensures Named(web, sources, fetched, l) {
      assert l in Elements(fetched) || l in Elements(pending);
      assert l in fetched + pending;
    }
    forall l | Named(web, sources, fetched, l) ensures l in queued {
      if Start(web, sources, l) {
        assert l in Elements(Roots(web, sources));
      } else {
        var u :| u in fetched && Child(web, u, l);
        assert u in Elements(fetched);
      }
    }
  }

  /** A complete import fetched every start and every child. */
  lemma AllFetched(web: Web, sources: Sources, queued: set<Location>, visited: set<Location>)
    requires Worklist(web, Roots(web, sources), [], queued, visited)
    ensures forall l :: Start(web, sources, l) ==> l in visited
    ensures ChildrenIn(web, visited, visited)
    ensures forall u :: Nested(web, sources, u) ==> u in visited
  {
    hide Roots, Start;
    RootsAreStarts(web, sources);
    CompleteIff(web, Roots(web, sources), [], queued, visited);
    forall l | Start(web, sources, l) ensures l in visited {
      assert l in Elements(Roots(web, sources));
    }
    forall u | Nested(web, sources, u) ensures u in visited {
      var p :| ListedPath(web, sources, p) && p[|p| - 1] == u;
      assert ChildPath(web, Roots(web, sources), p);
    }
  }

  /** AllFetched, location by location. */
  lemma AllFetchedPlainly(web: Web, sources: Sources, queued: set<Location>, visited: set<Location>)
    requires Worklist(web, Roots(web, sources), [], queued, visited)
    ensures forall l ::
              (l in sources.configured || l in sources.robots) && web.absoluteHttp(l) && web.inScope(l) ==>
                l in visited
    ensures NoneListed(web, sources) ==> sources.fallback in visited
    ensures forall u, c ::
              u in visited && web.fetch(u).Document? && c in web.fetch(u).children ==>
                web.absoluteHttp(c) && web.inScope(c) ==> c in visited
    ensures forall u :: Nested(web, sources, u) ==> u in visited
  {
    hide Worklist, Nested;
    AllFetched(web, sources, queued, visited);
    forall u, c |
      && u in visited && web.fetch(u).Document? && c in web.fetch(u).children
      && web.absoluteHttp(c) && web.inScope(c)
      ensures c in visited
    {
      assert Child(web, u, c);
    }
  }

  /** How many documents are reported. */
  lemma DocumentsCounted(web: Web, sources: Sources, pending: seq<Location>, queued: set<Location>,
                         visited: set<Location>, invalid: set<Location>, successfulRoots: seq<Location>)
    requires Importing(web, sources, pending, queued, visited, invalid, successfulRoots)
    ensures successfulRoots != [] <==>
            exists u ::
              && u in visited && web.fetch(u).Document?
              && (u in sources.configured || u in sources.robots || u == sources.fallback)
  {
    hide Worklist, Roots, Tolerated;
    if successfulRoots != [] { assert successfulRoots[0] in successfulRoots; }
  }

  lemma FetchesInTurn(web: Web, sources: Sources, fetched: seq<Location>, pending: seq<Location>,
                      visited: set<Location>)
    requires Fetching(web, sources, fetched, pending, visited)
    ensures Distinct(fetched) && Elements(fetched) == visited && InTurn(web, sources, fetched, fetched)
  {
    PrefixInTurn(web, sources, fetched, pending);
  }

  /** Fetches the queue; `queued` and `visited` are the locations queued and fetched, `fetched` the fetches in turn. */
  method ImportSitemaps(web: Web, sources: Sources)
    returns (result: ImportResult, queued: set<Location>, visited: set<Location>, ghost fetched: seq<Location>)
    ensures Distinct(fetched) && Elements(fetched) == visited && |visited| <= 1000
    ensures forall u :: u in visited ==> Nested(web, sources, u)
    ensures result.Raised? <==>
            exists u :: u in visited && web.fetch(u).Unreadable? && !(NoneListed(web, sources) && u == sources.fallback)
    ensures result.Raised? ==> fetched != [] && fetched[|fetched| - 1] == result.location
    ensures result.Imported? ==> |visited| + result.remainingDocuments == |queued|
    ensures result.Imported? ==> forall l :: l in queued <==> Named(web, sources, fetched, l)
    ensures result.Imported? ==> (result.complete <==> result.remainingDocuments == 0)
    ensures result.Imported? && !result.complete ==> |visited| == 1000
    ensures result.Imported? && result.complete ==>
              forall l ::
                (l in sources.configured || l in sources.robots) && web.absoluteHttp(l) && web.inScope(l) ==>
                  l in visited
    ensures result.Imported? && result.complete && NoneListed(web, sources) ==> sources.fallback in visited
    ensures result.Imported? && result.complete ==>
              forall u, c ::
                u in visited && web.fetch(u).Document? && c in web.fetch(u).children ==>
                  web.absoluteHttp(c) && web.inScope(c) ==> c in visited
    ensures result.Imported? && result.complete ==> forall u :: Nested(web, sources, u) ==> u in visited
    ensures result.Imported? ==>
              result.documents ==
              if exists u ::
                   && u in visited && web.fetch(u).Document?
                   && (u in sources.configured || u in sources.robots || u == sources.fallback)
              then |visited| else 0
    ensures InTurn(web, sources, fetched, fetched)
    ensures NoneListed(web, sources) || OrderOfStarts(web, sources, fetched)
  {
    hide Worklist, Importing, Fetching, InTurn, Appended, Roots, Tolerated, NoneListed, Start, Named, Nested, Distinct;
    hide OrderOfStarts, EligibleOnce;
    var pending, queuedNow, invalid := StartImport(web, sources);
    var visitedNow: set<Location> := {};
    var successfulRoots: seq<Location> := [];
    fetched := [];
    NothingFetched(web, sources);
    while pending != [] && |visitedNow| < MAX_SITEMAP_DOCUMENTS
      invariant Importing(web, sources, pending, queuedNow, visitedNow, invalid, successfulRoots)
      invariant Fetching(web, sources, fetched, pending, visitedNow)
      decreases MAX_SITEMAP_DOCUMENTS - |visitedNow|
    {
      var sitemap, rest := pending[0], pending[1..];
      assert pending == [sitemap] + rest;
      ImportFacts(web, sources, fetched, pending, queuedNow, visitedNow, invalid, successfulRoots);
      NoneFailed(web, sources, pending, queuedNow, visitedNow, invalid, successfulRoots);
      ghost var known := queuedNow;
      ghost var all := fetched + pending;
      var failed;
      failed, pending, queuedNow, invalid, successfulRoots :=
        ReadNext(web, sources, sitemap, rest, queuedNow, visitedNow, invalid, successfulRoots);
      FetchedNext(web, sources, fetched, sitemap, rest, pending, known, visitedNow);
      visitedNow, fetched := visitedNow + {sitemap}, fetched + [sitemap];
      if failed {
        assert fetched <= all;
        OrderOfPrefix(web, sources, all, fetched);
        FetchesInTurn(web, sources, fetched, pending, visitedNow);
        return Raised(sitemap), queuedNow, visitedNow, fetched;
      }
    }
    ImportFacts(web, sources, fetched, pending, queuedNow, visitedNow, invalid, successfulRoots);
    NoneFailed(web, sources, pending, queuedNow, visitedNow, invalid, successfulRoots);
    OrderOfPrefix(web, sources, fetched + pending, fetched);
    FetchesInTurn(web, sources, fetched, pending, visitedNow);
    QueuedNamed(web, sources, fetched, pending, queuedNow, visitedNow);
    DocumentsCounted(web, sources, pending, queuedNow, visitedNow, invalid, successfulRoots);
    if pending == [] {
      AllFetchedPlainly(web, sources, queuedNow, visitedNow);
    }
    result := Imported(if successfulRoots != [] then |visitedNow| else 0, pending == [], |pending|);
    queued, visited := queuedNow, visitedNow;
  }

  lemma HeadFresh(web: Web, roots: seq<Location>, pending: seq<Location>, queued: set<Location>, visited: set<Location>)
    requires Worklist(web, roots, pending, queued, visited) && pending != []
    ensures pending[0] in queued && pending[0] !in visited && pending[0] !in pending[1..]
  {
    assert pending[0] in Elements(pending);
  }
}
