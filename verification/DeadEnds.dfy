/**
 Landing dead ends: pages from which significantly fewer visitors continue than from their peers,
 by a one-sided exact binomial test with a step-up correction over all tested pages.
 */
module DeadEnds {
  import opened Sorting
  import opened BinomialTail
  import opened StepUp

  datatype Page = Page(entries: nat, bounces: nat, conversions: real, role: string)

  datatype Finding = Finding(page: nat, pValue: real)

  const MIN_PAGE_ENTRIES := 25
  const MIN_PEER_PAGES := 5
  const MIN_PEER_ENTRIES := 200
  const MIN_EFFECT := 0.10
  const TERMINAL_ROLE := "navigate"
  const UNCERTAIN := "uncertain"

  // ---------- one page against its peers ----------

  function Continuations(page: Page): (c: nat)
    ensures c <= page.entries
  {
    page.entries - (if page.entries < page.bounces then page.entries else page.bounces)
  }

  function Role(page: Page): string {
    if page.role == "" then UNCERTAIN else page.role
  }

  predicate Eligible(page: Page) {
    && page.entries >= MIN_PAGE_ENTRIES
    && page.conversions <= 0.0
    && Role(page) != TERMINAL_ROLE
    && Role(page) != UNCERTAIN
  }

  /** The other pages among the first n with the role of page i and at least one entry. */
  function Peers(pages: seq<Page>, i: nat, n: nat): seq<Page>
    requires i < |pages| && n <= |pages|
  {
    if n == 0 then [] else
      var page := pages[n - 1];
      Peers(pages, i, n - 1) + (if n - 1 != i && page.role == Role(pages[i]) && page.entries > 0 then [page] else [])
  }

  function Entries(pages: seq<Page>): nat {
    if pages == [] then 0 else pages[0].entries + Entries(pages[1..])
  }

  function AllContinuations(pages: seq<Page>): nat {
    if pages == [] then 0 else Continuations(pages[0]) + AllContinuations(pages[1..])
  }

  predicate EnoughPeers(peers: seq<Page>) {
    |peers| >= MIN_PEER_PAGES && Entries(peers) >= MIN_PEER_ENTRIES
  }

  function Benchmark(peers: seq<Page>): real
    requires EnoughPeers(peers)
  {
    AllContinuations(peers) as real / Entries(peers) as real
  }

  function NullRate(benchmark: real): real {
    if benchmark - MIN_EFFECT > 0.0 then benchmark - MIN_EFFECT else 0.0
  }

  /** Whether fewer visitors continue than the benchmark allows. */
  predicate Suspect(page: Page, benchmark: real)
    requires page.entries > 0
  {
    NullRate(benchmark) > 0.0 && Continuations(page) as real / page.entries as real <= NullRate(benchmark)
  }

  function PValue(page: Page, benchmark: real): real {
    LowerTail(Continuations(page), page.entries, NullRate(benchmark))
  }

  predicate Tested(pages: seq<Page>, i: nat)
    requires i < |pages|
  {
    && Eligible(pages[i])
    && EnoughPeers(Peers(pages, i, |pages|))
    && Suspect(pages[i], Benchmark(Peers(pages, i, |pages|)))
  }

  function Evidence(pages: seq<Page>, i: nat): real
    requires i < |pages| && Tested(pages, i)
  {
    PValue(pages[i], Benchmark(Peers(pages, i, |pages|)))
  }

  // ---------- what is tested, in terms of the pages alone ----------

  ghost function SumTo(n: nat, amount: nat -> nat): nat {
    if n == 0 then 0 else SumTo(n - 1, amount) + amount(n - 1)
  }

  /** Another page with the same role that visitors entered on. */
  ghost predicate IsPeer(pages: seq<Page>, i: nat, j: nat)
    requires i < |pages|
  {
    j < |pages| && j != i && pages[j].role == pages[i].role && pages[j].entries > 0
  }

  ghost function PeerCount(pages: seq<Page>, i: nat): nat -> nat
    requires i < |pages|
  {
    (j: nat) => if IsPeer(pages, i, j) then 1 else 0
  }

  ghost function PeerEntries(pages: seq<Page>, i: nat): nat -> nat
    requires i < |pages|
  {
    (j: nat) => if IsPeer(pages, i, j) then pages[j].entries else 0
  }

  /** Visitors of a peer that went on. */
  ghost function PeerContinuations(pages: seq<Page>, i: nat): nat -> nat
    requires i < |pages|
  {
    (j: nat) =>
      if IsPeer(pages, i, j) && pages[j].entries > pages[j].bounces then pages[j].entries - pages[j].bounces else 0
  }

  /**
   A page of a known role other than navigation, with entries and no conversions, whose share of visitors that went
   on is at least a tenth below that of enough peers.
   */
  ghost predicate Lags(pages: seq<Page>, i: nat)
    requires i < |pages|
  {
    var page, all := pages[i], |pages|;
    && page.entries >= 25 && page.conversions <= 0.0 && page.role !in {"", "navigate", "uncertain"}
    && SumTo(all, PeerCount(pages, i)) >= 5 && SumTo(all, PeerEntries(pages, i)) >= 200
    && AllowedRate(pages, i) > 0.0
    && (if page.entries > page.bounces then page.entries - page.bounces else 0) as real / page.entries as real
       <= AllowedRate(pages, i)
  }

  /** The peers' rate less a tenth. */
  ghost function AllowedRate(pages: seq<Page>, i: nat): real
    requires i < |pages| && SumTo(|pages|, PeerEntries(pages, i)) > 0
  {
    SumTo(|pages|, PeerContinuations(pages, i)) as real / SumTo(|pages|, PeerEntries(pages, i)) as real - 0.10
  }

  /** The chance of so few going on at that rate. */
  ghost function Chance(pages: seq<Page>, i: nat): real
    requires i < |pages| && Lags(pages, i)
  {
    var page := pages[i];
    LowerTail(if page.entries > page.bounces then page.entries - page.bounces else 0, page.entries,
              AllowedRate(pages, i))
  }

  lemma {:induction false} SumsSnoc(peers: seq<Page>, page: Page)
    ensures Entries(peers + [page]) == Entries(peers) + page.entries
    ensures AllContinuations(peers + [page]) == AllContinuations(peers) + Continuations(page)
  {
    var all := peers + [page];
    if peers == [] {
      assert all == [page];
    } else {
      assert all[0] == peers[0] && all[1..] == peers[1..] + [page];
      SumsSnoc(peers[1..], page);
    }
  }

  lemma {:induction false} PeersSummed(pages: seq<Page>, i: nat, n: nat)
    requires i < |pages| && n <= |pages| && pages[i].role != ""
    ensures |Peers(pages, i, n)| == SumTo(n, PeerCount(pages, i))
    ensures Entries(Peers(pages, i, n)) == SumTo(n, PeerEntries(pages, i))
    ensures AllContinuations(Peers(pages, i, n)) == SumTo(n, PeerContinuations(pages, i))
  {
    hide Entries, AllContinuations;
    if n == 0 {
      NoSums();
    } else {
      PeersSummed(pages, i, n - 1);
      var peers, page := Peers(pages, i, n - 1), pages[n - 1];
      SumsSnoc(peers, page);
      assert peers + [] == peers;
      assert IsPeer(pages, i, n - 1) <==> n - 1 != i && page.role == pages[i].role && page.entries > 0;
    }
  }

  lemma NoSums()
    ensures Entries([]) == AllContinuations([]) == 0
  {
  }

  lemma TestedLags(pages: seq<Page>, i: nat)
    requires i < |pages|
    ensures Tested(pages, i) <==> Lags(pages, i)
    ensures Tested(pages, i) ==> Evidence(pages, i) == Chance(pages, i)
  {
    hide Entries, AllContinuations, Peers, SumTo, PeerCount, PeerEntries, PeerContinuations, LowerTail;
    if pages[i].role != "" {
      PeersSummed(pages, i, |pages|);
    }
  }

  lemma {:induction false} ContinuationsBounded(peers: seq<Page>)
    ensures AllContinuations(peers) <= Entries(peers)
  {
    if peers != [] { ContinuationsBounded(peers[1..]); }
  }

  lemma BenchmarkIsProbability(peers: seq<Page>)
    requires EnoughPeers(peers)
    ensures Probability(Benchmark(peers)) && Probability(NullRate(Benchmark(peers)))
  {
    ContinuationsBounded(peers);
    Ratio(AllContinuations(peers), Entries(peers));
  }

  lemma Ratio(a: nat, b: nat)
    requires a <= b && b > 0
    ensures 0.0 <= a as real / b as real <= 1.0
  {
  }

  lemma RatioRises(a: nat, b: nat, n: nat)
    requires a <= b && n > 0
    ensures a as real / n as real <= b as real / n as real
  {
  }

  /** The evidence is a probability, so the reported confidence lies between zero and one. */
  lemma EvidenceIsProbability(pages: seq<Page>, i: nat)
    requires i < |pages| && Tested(pages, i)
    ensures Probability(Evidence(pages, i))
  {
    var peers := Peers(pages, i, |pages|);
    BenchmarkIsProbability(peers);
    TailIsProbability(Continuations(pages[i]), pages[i].entries, NullRate(Benchmark(peers)));
  }

  /** A page that loses to its peers loses to better peers, with evidence at least as strong. */
  lemma HigherBenchmarkStrengthens(page: Page, benchmark: real, higher: real)
    requires page.entries > 0 && Suspect(page, benchmark) && benchmark <= higher && Probability(higher)
    ensures Suspect(page, higher)
    ensures PValue(page, higher) <= PValue(page, benchmark)
  {
    TailAntitone(Continuations(page), page.entries, NullRate(benchmark), NullRate(higher));
  }

  /** More bounces on the same number of entries strengthen the evidence too. */
  lemma MoreBouncesStrengthen(page: Page, worse: Page, benchmark: real)
    requires page.entries > 0 && Suspect(page, benchmark) && Probability(benchmark)
    requires worse.entries == page.entries && page.bounces <= worse.bounces
    ensures Suspect(worse, benchmark)
    ensures PValue(worse, benchmark) <= PValue(page, benchmark)
  {
    RatioRises(Continuations(worse), Continuations(page), page.entries);
    TailMonotone(Continuations(worse), Continuations(page), page.entries, NullRate(benchmark));
  }

  // ---------- all pages ----------

  /** The tested pages among the first n, in order. */
  ghost function Candidates(pages: seq<Page>, n: nat): seq<Finding>
    requires n <= |pages|
  {
    if n == 0 then []
    else Candidates(pages, n - 1) + (if Tested(pages, n - 1) then [Finding(n - 1, Evidence(pages, n - 1))] else [])
  }

  lemma {:induction false} CandidatesAre(pages: seq<Page>, n: nat, f: Finding)
    requires n <= |pages|
    ensures f in Candidates(pages, n) <==> f.page < n && Tested(pages, f.page) && f.pValue == Evidence(pages, f.page)
  {
    if n > 0 {
      hide Tested, Evidence;
      CandidatesAre(pages, n - 1, f);
    }
  }

  lemma {:induction false} CandidatesDistinct(pages: seq<Page>, n: nat)
    requires n <= |pages|
    ensures Distinct(Candidates(pages, n))
  {
    if n > 0 {
      hide Tested, Evidence;
      CandidatesDistinct(pages, n - 1);
      if Tested(pages, n - 1) {
        CandidatesAre(pages, n - 1, Finding(n - 1, Evidence(pages, n - 1)));
        DistinctSnoc(Candidates(pages, n - 1), Finding(n - 1, Evidence(pages, n - 1)));
      }
    }
  }

  ghost function PValues(findings: seq<Finding>): (ps: seq<real>)
    ensures |ps| == |findings|
    ensures forall i :: 0 <= i < |ps| ==> ps[i] == findings[i].pValue
  {
    seq(|findings|, i requires 0 <= i < |findings| => findings[i].pValue)
  }

  predicate StrongerFirst(a: Finding, b: Finding) { a.pValue <= b.pValue }

  lemma {:induction false} PValuesInsert(f: Finding, findings: seq<Finding>)
    ensures PValues(Insert(f, findings, StrongerFirst)) == Insert(f.pValue, PValues(findings), Ascends)
  {
    hide PValues;
    if findings == [] || StrongerFirst(f, findings[0]) {
      PValuesCons(f, findings);
    } else {
      var first, rest := findings[0], findings[1..];
      assert findings == [first] + rest;
      PValuesInsert(f, rest);
      PValuesCons(first, rest);
      PValuesCons(first, Insert(f, rest, StrongerFirst));
      assert ([first.pValue] + PValues(rest))[1..] == PValues(rest);
    }
  }

  lemma PValuesCons(f: Finding, findings: seq<Finding>)
    ensures PValues([f] + findings) == [f.pValue] + PValues(findings)
  {
  }

  lemma {:induction false} PValuesSort(findings: seq<Finding>)
    ensures PValues(Sort(findings, StrongerFirst)) == Sort(PValues(findings), Ascends)
  {
    if findings != [] {
      PValuesSort(findings[1..]);
      assert PValues(findings)[1..] == PValues(findings[1..]);
      PValuesInsert(findings[0], Sort(findings[1..], StrongerFirst));
    }
  }

  lemma StrongerFirstOrder()
    ensures TotalPreorder(StrongerFirst)
  {
  }

  ghost function TestedPages(pages: seq<Page>): seq<Finding> {
    Candidates(pages, |pages|)
  }

  /** The pages whose evidence is under the line that the number of discoveries draws. */
  ghost predicate Reported(pages: seq<Page>, f: Finding) {
    && f.page < |pages| && Tested(pages, f.page) && f.pValue == Evidence(pages, f.page)
    && TestedPages(pages) != []
    && f.pValue <= Line(Discoveries(PValues(TestedPages(pages))), |TestedPages(pages)|)
  }

  method ListCandidates(pages: seq<Page>) returns (candidates: seq<Finding>)
    ensures candidates == TestedPages(pages)
  {
    candidates := [];
    for n := 0 to |pages|
      invariant candidates == Candidates(pages, n)
    {
      if Tested(pages, n) {
        candidates := candidates + [Finding(n, Evidence(pages, n))];
      }
    }
  }

  /** The ranking is by evidence, and by position among equals. */
  ghost predicate Ranked(findings: seq<Finding>) {
    forall i, j :: 0 <= i < j < |findings| ==>
      || findings[i].pValue < findings[j].pValue
      || (findings[i].pValue == findings[j].pValue && findings[i].page < findings[j].page)
  }

  lemma {:induction false} InsertRanked(f: Finding, findings: seq<Finding>)
    requires Ranked(findings) && forall g :: g in findings ==> f.page < g.page
    ensures Ranked(Insert(f, findings, StrongerFirst))
    ensures forall g :: g in Insert(f, findings, StrongerFirst) <==> g == f || g in findings
  {
    if findings != [] && !StrongerFirst(f, findings[0]) {
      var first, rest := findings[0], findings[1..];
      InsertRanked(f, rest);
      RankedCons(first, Insert(f, rest, StrongerFirst), f, rest);
    } else {
      forall g | g in findings ensures f.pValue <= g.pValue {
        assert f.pValue <= findings[0].pValue;
      }
    }
  }

  lemma RankedCons(first: Finding, inserted: seq<Finding>, f: Finding, rest: seq<Finding>)
    requires Ranked([first] + rest) && Ranked(inserted) && first.pValue < f.pValue
    requires forall g :: g in inserted ==> g == f || g in rest
    ensures Ranked([first] + inserted)
  {
    var all := [first] + rest;
    forall g | g in rest
      ensures first.pValue < g.pValue || (first.pValue == g.pValue && first.page < g.page)
    {
      var k :| 0 <= k < |rest| && rest[k] == g;
      assert all[0] == first && all[k + 1] == g;
    }
    forall k | 0 <= k < |inserted|
      ensures first.pValue < inserted[k].pValue || (first.pValue == inserted[k].pValue && first.page < inserted[k].page)
    {
      assert inserted[k] in inserted;
    }
  }

  lemma {:induction false} SortRanks(findings: seq<Finding>)
    requires Ascending(findings)
    ensures Ranked(Sort(findings, StrongerFirst))
    ensures forall g :: g in Sort(findings, StrongerFirst) <==> g in findings
  {
    if findings != [] {
      SortRanks(findings[1..]);
      forall g | g in Sort(findings[1..], StrongerFirst) ensures findings[0].page < g.page {
        var k :| 0 <= k < |findings[1..]| && findings[1..][k] == g;
      }
      InsertRanked(findings[0], Sort(findings[1..], StrongerFirst));
    }
  }

  ghost predicate Ascending(findings: seq<Finding>) {
    forall i, j :: 0 <= i < j < |findings| ==> findings[i].page < findings[j].page
  }

  lemma {:induction false} CandidatesAscend(pages: seq<Page>, n: nat)
    requires n <= |pages|
    ensures Ascending(Candidates(pages, n))
  {
    if n > 0 {
      hide Tested, Evidence;
      CandidatesAscend(pages, n - 1);
      var c := Candidates(pages, n - 1);
      forall i | 0 <= i < |c| ensures c[i].page < n - 1 {
        assert c[i] in c;
        CandidatesAre(pages, n - 1, c[i]);
      }
      AscendingSnoc(c, n - 1, if Tested(pages, n - 1) then [Finding(n - 1, Evidence(pages, n - 1))] else []);
    }
  }

  lemma AscendingSnoc(c: seq<Finding>, n: nat, last: seq<Finding>)
    requires Ascending(c) && forall i :: 0 <= i < |c| ==> c[i].page < n
    requires |last| <= 1 && forall f :: f in last ==> f.page == n
    ensures Ascending(c + last)
  {
    if last != [] {
      assert last[0] in last;
      assert c + last == c + [last[0]];
    }
  }

  /** The k-th of the ranking is the last whose p-value is within its rank's part of the allowed ten percent. */
  ghost predicate LastWithin(ranking: seq<Finding>, k: nat) {
    && k <= |ranking|
    && (k > 0 ==> ranking[k - 1].pValue * |ranking| as real <= k as real * 0.10)
    && forall i :: k <= i < |ranking| ==> ranking[i].pValue * |ranking| as real > (i + 1) as real * 0.10
  }

  lemma CutOf(ps: seq<real>, ranking: seq<Finding>, k: nat)
    requires ps == PValues(ranking) && k <= |ps|
    requires k > 0 ==> ps[k - 1] * |ps| as real <= k as real * 0.10
    requires forall i :: k <= i < |ps| ==> ps[i] * |ps| as real > (i + 1) as real * 0.10
    ensures LastWithin(ranking, k)
  {
    forall i | k <= i < |ranking| ensures ranking[i].pValue * |ranking| as real > (i + 1) as real * 0.10 {
      assert ps[i] == ranking[i].pValue;
    }
  }

  lemma RankingHolds(pages: seq<Page>, ranking: seq<Finding>)
    requires ranking == Sort(TestedPages(pages), StrongerFirst)
    ensures Ranked(ranking)
    ensures forall f :: f in ranking <==>
              f.page < |pages| && Lags(pages, f.page) && f.pValue == Chance(pages, f.page)
  {
    hide Candidates, Tested, Evidence, Lags, Chance;
    CandidatesAscend(pages, |pages|);
    SortRanks(TestedPages(pages));
    forall f ensures f in ranking <==>
                       f.page < |pages| && Lags(pages, f.page) && f.pValue == Chance(pages, f.page)
    {
      CandidatesAre(pages, |pages|, f);
      if f.page < |pages| { TestedLags(pages, f.page); }
    }
  }

  /**
   Reports exactly the pages under the line, strongest evidence first, each once: of the ranking of all pages that lag
   behind, up to the last one whose evidence is within its rank's part of the allowed rate.
   */
  method DetectDeadEnds(pages: seq<Page>) returns (results: seq<Finding>, ghost ranking: seq<Finding>)
    ensures Ranked(ranking)
    ensures forall f :: f in ranking <==>
              f.page < |pages| && Lags(pages, f.page) && f.pValue == Chance(pages, f.page)
    ensures results <= ranking && LastWithin(ranking, |results|)
    ensures forall f :: f in results <==> Reported(pages, f)
    ensures |results| == Discoveries(PValues(TestedPages(pages)))
    ensures Distinct(results) && SortedBy(results, StrongerFirst)
  {
    hide Tested, Evidence, Candidates, Discoveries, Line, Insert, Sort, Lags, Chance, Ranked, LastWithin;
    var candidates := ListCandidates(pages);
    var ordered := Sort(candidates, StrongerFirst);
    RankingOf(candidates);
    RankingHolds(pages, ordered);
    ranking := ordered;
    var ps := ListPValues(ordered);
    var accepted := CountAccepted(ps);
    CutOf(ps, ordered, accepted);
    DiscoveriesIgnoreOrder(ps, PValues(candidates));
    results := ordered[..accepted];
    CandidatesDistinct(pages, |pages|);
    PermutationDistinct(candidates, ordered);
    AcceptedAreReported(pages, ordered, accepted);
  }

  method ListPValues(findings: seq<Finding>) returns (ps: seq<real>)
    ensures ps == PValues(findings)
  {
    ps := seq(|findings|, i requires 0 <= i < |findings| => findings[i].pValue);
  }

  lemma RankingOf(candidates: seq<Finding>)
    ensures SortedBy(Sort(candidates, StrongerFirst), StrongerFirst)
    ensures SortedBy(PValues(Sort(candidates, StrongerFirst)), Ascends)
    ensures multiset(PValues(Sort(candidates, StrongerFirst))) == multiset(PValues(candidates))
  {
    StrongerFirstOrder();
    AscendsOrder();
    SortSorts(candidates, StrongerFirst);
    PValuesSort(candidates);
    SortSorts(PValues(candidates), Ascends);
  }

  lemma PrefixUnder(ordered: seq<Finding>, accepted: nat, t: real, f: Finding)
    requires accepted <= |ordered|
    requires forall i :: 0 <= i < |ordered| ==> (i < accepted <==> PValues(ordered)[i] <= t)
    ensures f in ordered[..accepted] <==> f in ordered && f.pValue <= t
  {
    if f in ordered && f.pValue <= t {
      var i :| 0 <= i < |ordered| && ordered[i] == f;
      assert PValues(ordered)[i] == f.pValue;
      assert ordered[..accepted][i] == f;
    }
    if f in ordered[..accepted] {
      var i :| 0 <= i < accepted && ordered[i] == f;
      assert PValues(ordered)[i] == f.pValue;
    }
  }

  lemma AcceptedAreReported(pages: seq<Page>, ordered: seq<Finding>, accepted: nat)
    requires multiset(ordered) == multiset(TestedPages(pages))
    requires accepted == Discoveries(PValues(TestedPages(pages))) <= |ordered|
    requires ordered != [] ==> forall i :: 0 <= i < |ordered| ==>
      (i < accepted <==> PValues(ordered)[i] <= Line(accepted, |ordered|))
    ensures forall f :: f in ordered[..accepted] <==> Reported(pages, f)
  {
    hide Tested, Evidence, Candidates, Discoveries, Line;
    SameLength(ordered, TestedPages(pages));
    forall f ensures f in ordered[..accepted] <==> Reported(pages, f) {
      CandidatesAre(pages, |pages|, f);
      assert f in multiset(ordered) <==> f in ordered;
      assert f in multiset(TestedPages(pages)) <==> f in TestedPages(pages);
      if ordered != [] { PrefixUnder(ordered, accepted, Line(accepted, |ordered|), f); }
    }
  }

  /** Whatever is reported has at least ninety percent confidence. */
  lemma ReportedIsConfident(pages: seq<Page>, f: Finding)
    requires Reported(pages, f)
    ensures 0.0 <= f.pValue <= MAX_FALSE_DISCOVERY_RATE
  {
    EvidenceIsProbability(pages, f.page);
    var ps := PValues(TestedPages(pages));
    LargestReachedIs(ps, |ps|, 0);
    LineRises(Discoveries(ps), |ps|, |ps|);
    Top(|ps|);
  }

  lemma Top(m: nat)
    requires m > 0
    ensures Line(m, m) == MAX_FALSE_DISCOVERY_RATE
  {
    assert m as real / m as real == 1.0;
  }
}
