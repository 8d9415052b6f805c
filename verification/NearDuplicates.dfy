/**
 Near-duplicate detection: an inverted index over five-token shingles counts the overlap of every
 pair of pages without comparing all pairs, and the pairs that overlap enough are grouped.
 */
module NearDuplicates {
  import opened Basics
  import opened Sorting
  import opened ConnectedGroups
  import opened SimilarPages

  const SHINGLE_SIZE := 5
  const CONTAINMENT := 0.85
  const SIZE_RATIO := 0.75

  // ---------- documents ----------

  function Window(tokens: seq<string>, offset: nat): Shingle
    requires offset + SHINGLE_SIZE <= |tokens|
  {
    tokens[offset..offset + SHINGLE_SIZE]
  }

  function Shingles(tokens: seq<string>): set<Shingle> {
    set offset: nat | offset <= |tokens| - SHINGLE_SIZE :: Window(tokens, offset)
  }

  function Document(row: Row, skipped: bool): set<Shingle> {
    if skipped || !row.comparable then {} else Shingles(row.tokens)
  }

  /** The shingles of every row; a row that is not compared has none. */
  ghost function Documents(rows: seq<Row>, excluded: set<nat>): (docs: seq<set<Shingle>>)
    ensures |docs| == |rows|
    ensures forall i :: 0 <= i < |rows| ==> docs[i] == Document(rows[i], i in excluded)
  {
    seq(|rows|, i requires 0 <= i < |rows| => Document(rows[i], i in excluded))
  }

  ghost function Indexed(docs: seq<set<Shingle>>): set<nat> {
    set i: nat | i < |docs| && docs[i] != {}
  }

  function CommonLimit(documents: nat): nat {
    if documents / 10 > 10 then documents / 10 else 10
  }

  /** The documents that hold s, in ascending order. */
  ghost function Posting(docs: seq<set<Shingle>>, s: Shingle): seq<nat> {
    if docs == [] then []
    else Posting(docs[..|docs| - 1], s) + (if s in docs[|docs| - 1] then [|docs| - 1] else [])
  }

  ghost predicate Ascending(p: seq<nat>) {
    forall i, j :: 0 <= i < j < |p| ==> p[i] < p[j]
  }

  lemma {:induction false} PostingHolds(docs: seq<set<Shingle>>, s: Shingle)
    ensures forall i: nat :: i in Posting(docs, s) <==> i < |docs| && s in docs[i]
    ensures Ascending(Posting(docs, s))
  {
    if docs != [] {
      var before := docs[..|docs| - 1];
      PostingHolds(before, s);
      assert forall i :: 0 <= i < |before| ==> docs[i] == before[i];
      var p := Posting(before, s);
      forall k | 0 <= k < |p| ensures p[k] < |before| {
        assert p[k] in p;
      }
    }
  }

  function Lookup(postings: map<Shingle, seq<nat>>, s: Shingle): seq<nat> {
    if s in postings then postings[s] else []
  }

  ghost predicate PostingsOf(postings: map<Shingle, seq<nat>>, docs: seq<set<Shingle>>) {
    forall s :: Lookup(postings, s) == Posting(docs, s)
  }

  ghost predicate ShinglesOf(shingles: map<nat, set<Shingle>>, docs: seq<set<Shingle>>) {
    shingles.Keys == Indexed(docs) && forall i :: i in shingles ==> i < |docs| && shingles[i] == docs[i]
  }

  /** Appends index to the posting of every shingle of its document. */
  method AddPostings(postings0: map<Shingle, seq<nat>>, document: set<Shingle>, index: nat)
      returns (postings: map<Shingle, seq<nat>>)
    ensures forall s :: Lookup(postings, s) == Lookup(postings0, s) + (if s in document then [index] else [])
  {
    postings := postings0;
    var rest := document;
    while rest != {}
      invariant rest <= document
      invariant forall s :: Lookup(postings, s) == Lookup(postings0, s) + (if s in document - rest then [index] else [])
    {
      var shingle :| shingle in rest;
      postings := postings[shingle := Lookup(postings, shingle) + [index]];
      rest := rest - {shingle};
    }
  }

  lemma PostingsNext(was: map<Shingle, seq<nat>>, postings: map<Shingle, seq<nat>>, docs: seq<set<Shingle>>,
                     document: set<Shingle>)
    requires PostingsOf(was, docs)
    requires forall s :: Lookup(postings, s) == Lookup(was, s) + (if s in document then [|docs|] else [])
    ensures PostingsOf(postings, docs + [document])
  {
    forall s ensures Lookup(postings, s) == Posting(docs + [document], s) {
      hide Lookup;
      assert (docs + [document])[..|docs|] == docs;
      assert Lookup(was, s) == Posting(docs, s);
    }
  }

  lemma ShinglesNext(shingles: map<nat, set<Shingle>>, docs: seq<set<Shingle>>, document: set<Shingle>)
    requires ShinglesOf(shingles, docs)
    ensures ShinglesOf(if document == {} then shingles else shingles[|docs| := document], docs + [document])
  {
    var after := docs + [document];
    var next := if document == {} then shingles else shingles[|docs| := document];
    assert forall i :: 0 <= i < |docs| ==> after[i] == docs[i];
    assert after[|docs|] == document;
    forall i ensures i in next <==> i in Indexed(after) {
      assert i in shingles <==> i in Indexed(docs);
    }
  }

  method BuildIndex(rows: seq<Row>, excluded: set<nat>)
      returns (shingles: map<nat, set<Shingle>>, postings: map<Shingle, seq<nat>>)
    ensures ShinglesOf(shingles, Documents(rows, excluded))
    ensures PostingsOf(postings, Documents(rows, excluded))
  {
    hide ShinglesOf, PostingsOf, Lookup;
    ghost var docs := Documents(rows, excluded);
    shingles, postings := map[], map[];
    NothingIndexed();
    for index := 0 to |rows|
      invariant ShinglesOf(shingles, docs[..index])
      invariant PostingsOf(postings, docs[..index])
    {
      var document := Document(rows[index], index in excluded);
      assert docs[..index + 1] == docs[..index] + [document];
      ShinglesNext(shingles, docs[..index], document);
      ghost var was := postings;
      postings := AddPostings(postings, document, index);
      PostingsNext(was, postings, docs[..index], document);
      if document != {} {
        shingles := shingles[index := document];
      }
    }
    assert docs[..|rows|] == docs;
  }

  lemma NothingIndexed()
    ensures ShinglesOf(map[], []) && PostingsOf(map[], [])
  {
  }

  // ---------- counting pairs ----------

  function PairsWith(x: nat, rest: seq<nat>): seq<(nat, nat)> {
    seq(|rest|, i requires 0 <= i < |rest| => (x, rest[i]))
  }

  /** All pairs of positions in order, as itertools.combinations lists them. */
  function Combinations(p: seq<nat>): seq<(nat, nat)> {
    if p == [] then [] else PairsWith(p[0], p[1..]) + Combinations(p[1..])
  }

  ghost function Occurs(pairs: seq<(nat, nat)>, q: (nat, nat)): nat {
    multiset(pairs)[q]
  }

  lemma PairedWithFirst(x: nat, rest: seq<nat>, q: (nat, nat))
    requires Distinct(rest)
    ensures Occurs(PairsWith(x, rest), q) == One(q.0 == x && q.1 in rest)
  {
    var pairs := PairsWith(x, rest);
    DistinctCount(pairs, q);
    if q.0 == x && q.1 in rest {
      var i :| 0 <= i < |rest| && rest[i] == q.1;
      assert pairs[i] == q;
    }
  }

  lemma {:induction false} CombinationsOnce(p: seq<nat>, q: (nat, nat))
    requires Ascending(p)
    ensures Occurs(Combinations(p), q) == One(q.0 < q.1 && q.0 in p && q.1 in p)
  {
    if p != [] {
      hide PairsWith;
      var first, rest := p[0], p[1..];
      CombinationsOnce(rest, q);
      PairedWithFirst(first, rest, q);
      assert forall x :: x in p <==> x == first || x in rest;
      assert forall x :: x in rest ==> first < x;
    }
  }

  function CountOf(counts: map<(nat, nat), nat>, q: (nat, nat)): nat {
    if q in counts then counts[q] else 0
  }

  ghost predicate Positive(counts: map<(nat, nat), nat>) {
    forall q :: q in counts ==> counts[q] > 0
  }

  ghost predicate Added(counts0: map<(nat, nat), nat>, counts: map<(nat, nat), nat>, pairs: seq<(nat, nat)>) {
    forall q :: CountOf(counts, q) == CountOf(counts0, q) + Occurs(pairs, q)
  }

  lemma AddedNext(counts0: map<(nat, nat), nat>, counts: map<(nat, nat), nat>, pairs: seq<(nat, nat)>, p: (nat, nat))
    requires Added(counts0, counts, pairs)
    ensures Added(counts0, counts[p := CountOf(counts, p) + 1], pairs + [p])
  {
  }

  method CountPairs(counts0: map<(nat, nat), nat>, posting: seq<nat>) returns (counts: map<(nat, nat), nat>)
    requires Ascending(posting) && Positive(counts0)
    ensures Positive(counts)
    ensures forall q :: CountOf(counts, q) == CountOf(counts0, q) + One(q.0 < q.1 && q.0 in posting && q.1 in posting)
  {
    hide Added;
    counts := counts0;
    var pairs := Combinations(posting);
    assert Added(counts0, counts0, []) by { NothingAdded(counts0); }
    for k := 0 to |pairs|
      invariant Positive(counts)
      invariant Added(counts0, counts, pairs[..k])
    {
      assert pairs[..k + 1] == pairs[..k] + [pairs[k]];
      AddedNext(counts0, counts, pairs[..k], pairs[k]);
      counts := counts[pairs[k] := CountOf(counts, pairs[k]) + 1];
    }
    assert pairs[..|pairs|] == pairs;
    AllAdded(counts0, counts, posting);
  }

  lemma NothingAdded(counts: map<(nat, nat), nat>)
    ensures Added(counts, counts, [])
  {
  }

  lemma AllAdded(counts0: map<(nat, nat), nat>, counts: map<(nat, nat), nat>, posting: seq<nat>)
    requires Ascending(posting) && Added(counts0, counts, Combinations(posting))
    ensures forall q :: CountOf(counts, q) == CountOf(counts0, q) + One(q.0 < q.1 && q.0 in posting && q.1 in posting)
  {
    hide CountOf;
    forall q ensures CountOf(counts, q) == CountOf(counts0, q) + One(q.0 < q.1 && q.0 in posting && q.1 in posting) {
      CombinationsOnce(posting, q);
      assert CountOf(counts, q) == CountOf(counts0, q) + Occurs(Combinations(posting), q);
    }
  }

  /** The shingles of both documents among the given ones. */
  ghost function Shared(docs: seq<set<Shingle>>, among: set<Shingle>, q: (nat, nat)): set<Shingle> {
    if q.0 < q.1 < |docs| then docs[q.0] * docs[q.1] * among else {}
  }

  ghost predicate CountsOf(counts: map<(nat, nat), nat>, docs: seq<set<Shingle>>, among: set<Shingle>) {
    forall q :: CountOf(counts, q) == |Shared(docs, among, q)|
  }

  /** The shingles that are not in too many documents. */
  ghost function Rare(postings: map<Shingle, seq<nat>>, limit: nat): set<Shingle> {
    set s | s in postings && |postings[s]| <= limit
  }

  lemma SharedNext(docs: seq<set<Shingle>>, among: set<Shingle>, s: Shingle, q: (nat, nat))
    requires s !in among
    ensures |Shared(docs, among + {s}, q)| ==
            |Shared(docs, among, q)| + One(q.0 < q.1 && q.0 in Posting(docs, s) && q.1 in Posting(docs, s))
  {
    hide Posting;
    PostingHolds(docs, s);
    if q.0 < q.1 < |docs| && s in docs[q.0] && s in docs[q.1] {
      assert Shared(docs, among + {s}, q) == Shared(docs, among, q) + {s};
    } else {
      assert Shared(docs, among + {s}, q) == Shared(docs, among, q);
    }
  }

  lemma CountsNext(was: map<(nat, nat), nat>, counts: map<(nat, nat), nat>, docs: seq<set<Shingle>>,
                   among: set<Shingle>, s: Shingle)
    requires CountsOf(was, docs, among) && s !in among
    requires
      var p := Posting(docs, s);
      forall q :: CountOf(counts, q) == CountOf(was, q) + One(q.0 < q.1 && q.0 in p && q.1 in p)
    ensures CountsOf(counts, docs, among + {s})
  {
    forall q ensures CountOf(counts, q) == |Shared(docs, among + {s}, q)| {
      hide CountOf, Shared, Posting;
      assert CountOf(was, q) == |Shared(docs, among, q)|;
      SharedNext(docs, among, s, q);
    }
  }

  /** Counts, for every pair, the shared shingles that are not too common. */
  method CountOverlaps(ghost docs: seq<set<Shingle>>, postings: map<Shingle, seq<nat>>, limit: nat)
      returns (counts: map<(nat, nat), nat>)
    requires PostingsOf(postings, docs)
    ensures CountsOf(counts, docs, Rare(postings, limit)) && Positive(counts)
  {
    hide CountsOf, CountOf, Posting;
    counts := map[];
    var rest := postings.Keys;
    ghost var among: set<Shingle> := {};
    NothingCounted(docs);
    while rest != {}
      invariant rest <= postings.Keys
      invariant among == (set s | s in Rare(postings, limit) && s !in rest)
      invariant CountsOf(counts, docs, among) && Positive(counts)
    {
      var s :| s in rest;
      assert postings[s] == Posting(docs, s) by { assert Lookup(postings, s) == Posting(docs, s); }
      PostingHolds(docs, s);
      if |postings[s]| <= limit {
        ghost var was := counts;
        counts := CountPairs(counts, postings[s]);
        CountsNext(was, counts, docs, among, s);
        among := among + {s};
      }
      rest := rest - {s};
    }
    assert among == Rare(postings, limit);
  }

  lemma NothingCounted(docs: seq<set<Shingle>>)
    ensures CountsOf(map[], docs, {})
  {
    forall q ensures CountOf(map[], q) == |Shared(docs, {}, q)| {
      assert Shared(docs, {}, q) == {};
    }
  }

  // ---------- edges ----------

  /** Whether documents of these sizes with this overlap are reported, and with which score. */
  predicate Similar(left: nat, right: nat, overlap: nat)
    requires left > 0 && right > 0
  {
    && Min(left, right) as real / Max(left, right) as real >= SIZE_RATIO
    && overlap as real / Min(left, right) as real >= CONTAINMENT
  }

  /** The edge that the shingles among the given ones yield. */
  ghost predicate IsEdge(docs: seq<set<Shingle>>, among: set<Shingle>, e: Edge) {
    && e.left < e.right < |docs|
    && docs[e.left] != {} && docs[e.right] != {}
    && Similar(|docs[e.left]|, |docs[e.right]|, |Shared(docs, among, (e.left, e.right))|)
    && e.score == |Shared(docs, among, (e.left, e.right))| as real / Min(|docs[e.left]|, |docs[e.right]|) as real
  }

  ghost predicate EdgesOf(docs: seq<set<Shingle>>, among: set<Shingle>, edges: seq<Edge>) {
    && Distinct(edges)
    && forall e :: e in edges <==> IsEdge(docs, among, e)
  }

  /** The counted pairs dealt with so far have yielded their edges. */
  ghost predicate EdgesFrom(docs: seq<set<Shingle>>, among: set<Shingle>, edges: seq<Edge>, done: set<(nat, nat)>) {
    && Distinct(edges)
    && forall e :: e in edges <==> IsEdge(docs, among, e) && (e.left, e.right) in done
  }

  lemma EdgeAdded(docs: seq<set<Shingle>>, among: set<Shingle>, edges: seq<Edge>, done: set<(nat, nat)>, e: Edge)
    requires EdgesFrom(docs, among, edges, done) && (e.left, e.right) !in done && IsEdge(docs, among, e)
    ensures EdgesFrom(docs, among, edges + [e], done + {(e.left, e.right)})
  {
    DistinctSnoc(edges, e);
    forall x ensures x in edges + [e] <==> IsEdge(docs, among, x) && (x.left, x.right) in done + {(e.left, e.right)} {
    }
  }

  lemma EdgeSkipped(docs: seq<set<Shingle>>, among: set<Shingle>, edges: seq<Edge>, done: set<(nat, nat)>,
                    q: (nat, nat))
    requires EdgesFrom(docs, among, edges, done)
    requires forall e :: IsEdge(docs, among, e) ==> (e.left, e.right) != q
    ensures EdgesFrom(docs, among, edges, done + {q})
  {
    hide IsEdge;
  }

  /** A pair that was never counted shares nothing and is no edge. */
  lemma UncountedIsNoEdge(docs: seq<set<Shingle>>, among: set<Shingle>, counts: map<(nat, nat), nat>, e: Edge)
    requires CountsOf(counts, docs, among) && IsEdge(docs, among, e)
    ensures (e.left, e.right) in counts
  {
    assert CountOf(counts, (e.left, e.right)) == |Shared(docs, among, (e.left, e.right))|;
  }

  lemma CountedPair(docs: seq<set<Shingle>>, among: set<Shingle>, q: (nat, nat))
    requires |Shared(docs, among, q)| > 0
    ensures q.0 < q.1 < |docs| && docs[q.0] != {} && docs[q.1] != {}
  {
    var s :| s in Shared(docs, among, q);
  }

  method SelectEdges(ghost docs: seq<set<Shingle>>, ghost among: set<Shingle>,
                     shingles: map<nat, set<Shingle>>, counts: map<(nat, nat), nat>) returns (edges: seq<Edge>)
    requires ShinglesOf(shingles, docs)
    requires CountsOf(counts, docs, among) && Positive(counts)
    ensures EdgesOf(docs, among, edges)
  {
    hide EdgesFrom, Shared, CountsOf, Similar;
    edges := [];
    var rest := counts.Keys;
    assert EdgesFrom(docs, among, [], {}) by { NoEdges(docs, among); }
    assert counts.Keys - rest == {};
    while rest != {}
      invariant rest <= counts.Keys
      invariant EdgesFrom(docs, among, edges, counts.Keys - rest)
    {
      var q :| q in rest;
      var (left, right) := q;
      CountAtKey(counts, docs, among, q);
      CountedPair(docs, among, q);
      var leftSize, rightSize := |shingles[left]|, |shingles[right]|;
      var edge := Edge(left, right, counts[q] as real / Min(leftSize, rightSize) as real);
      assert counts.Keys - (rest - {q}) == counts.Keys - rest + {q};
      if Similar(leftSize, rightSize, counts[q]) {
        EdgeAdded(docs, among, edges, counts.Keys - rest, edge);
        edges := edges + [edge];
      } else {
        EdgeSkipped(docs, among, edges, counts.Keys - rest, q);
      }
      rest := rest - {q};
    }
    assert counts.Keys - rest == counts.Keys;
    AllEdges(docs, among, edges, counts);
  }

  lemma NoEdges(docs: seq<set<Shingle>>, among: set<Shingle>)
    ensures EdgesFrom(docs, among, [], {})
  {
  }

  lemma CountAtKey(counts: map<(nat, nat), nat>, docs: seq<set<Shingle>>, among: set<Shingle>, q: (nat, nat))
    requires CountsOf(counts, docs, among) && q in counts
    ensures counts[q] == |Shared(docs, among, q)|
  {
    assert CountOf(counts, q) == |Shared(docs, among, q)|;
  }

  lemma AllEdges(docs: seq<set<Shingle>>, among: set<Shingle>, edges: seq<Edge>, counts: map<(nat, nat), nat>)
    requires EdgesFrom(docs, among, edges, counts.Keys) && CountsOf(counts, docs, among)
    ensures EdgesOf(docs, among, edges)
  {
    hide IsEdge, CountsOf;
    forall e | IsEdge(docs, among, e) ensures (e.left, e.right) in counts {
      UncountedIsNoEdge(docs, among, counts, e);
    }
  }

  // ---------- which pairs are reported ----------

  /** The shingles that are not in too many documents. */
  ghost function RareShingles(docs: seq<set<Shingle>>): set<Shingle> {
    set i, s | 0 <= i < |docs| && s in docs[i] && |Posting(docs, s)| <= CommonLimit(|Indexed(docs)|) :: s
  }

  lemma RareAgrees(docs: seq<set<Shingle>>, postings: map<Shingle, seq<nat>>, q: (nat, nat))
    requires PostingsOf(postings, docs)
    ensures Shared(docs, Rare(postings, CommonLimit(|Indexed(docs)|)), q) == Shared(docs, RareShingles(docs), q)
  {
    hide CommonLimit, Posting, Indexed;
    if q.0 < q.1 < |docs| {
      forall s | s in docs[q.0] && s in docs[q.1]
        ensures s in Rare(postings, CommonLimit(|Indexed(docs)|)) <==> s in RareShingles(docs)
      {
        PostingHolds(docs, s);
        assert Lookup(postings, s) == Posting(docs, s);
        assert q.0 in Posting(docs, s);
      }
    }
  }

  lemma RareCounts(docs: seq<set<Shingle>>, postings: map<Shingle, seq<nat>>, counts: map<(nat, nat), nat>)
    requires PostingsOf(postings, docs) && CountsOf(counts, docs, Rare(postings, CommonLimit(|Indexed(docs)|)))
    ensures CountsOf(counts, docs, RareShingles(docs))
  {
    forall q ensures CountOf(counts, q) == |Shared(docs, RareShingles(docs), q)| {
      hide PostingsOf, Shared, Rare, RareShingles, CommonLimit, Indexed, CountOf;
      RareAgrees(docs, postings, q);
      assert CountOf(counts, q) == |Shared(docs, Rare(postings, CommonLimit(|Indexed(docs)|)), q)|;
    }
  }

  /** The share of the smaller document that the two documents have in common. */
  ghost function Containment(docs: seq<set<Shingle>>, left: nat, right: nat): real
    requires left < right < |docs| && docs[left] != {} && docs[right] != {}
  {
    |docs[left] * docs[right]| as real / Min(|docs[left]|, |docs[right]|) as real
  }

  /** The definition without an index: enough of the smaller document is in the other one. */
  ghost predicate TrulySimilar(docs: seq<set<Shingle>>, left: nat, right: nat) {
    && left < right < |docs|
    && docs[left] != {} && docs[right] != {}
    && Similar(|docs[left]|, |docs[right]|, |docs[left] * docs[right]|)
  }

  lemma ScaledDown(a: nat, b: nat, m: nat)
    requires a <= b && m > 0
    ensures a as real / m as real <= b as real / m as real
  {
  }

  /** Every reported pair is truly similar, and its score never overstates the containment. */
  lemma ReportedIsSimilar(docs: seq<set<Shingle>>, e: Edge)
    requires IsEdge(docs, RareShingles(docs), e)
    ensures TrulySimilar(docs, e.left, e.right)
    ensures CONTAINMENT <= e.score <= Containment(docs, e.left, e.right)
  {
    hide RareShingles;
    var both := docs[e.left] * docs[e.right];
    SubsetSize(both * RareShingles(docs), both);
    ScaledDown(|both * RareShingles(docs)|, |both|, Min(|docs[e.left]|, |docs[e.right]|));
  }

  /** A pair that shares no common shingle is reported exactly if it is similar, with its true score. */
  lemma RarePairReportedIff(docs: seq<set<Shingle>>, left: nat, right: nat)
    requires left < right < |docs| && docs[left] != {} && docs[right] != {}
    requires docs[left] * docs[right] <= RareShingles(docs)
    ensures IsEdge(docs, RareShingles(docs), Edge(left, right, Containment(docs, left, right))) <==>
      TrulySimilar(docs, left, right)
  {
    hide RareShingles;
    assert docs[left] * docs[right] * RareShingles(docs) == docs[left] * docs[right];
  }

  /** A similar pair is missed exactly if its shingles that are not too common are too few. */
  lemma MissedIff(docs: seq<set<Shingle>>, left: nat, right: nat)
    requires TrulySimilar(docs, left, right)
    ensures
      (forall score :: !IsEdge(docs, RareShingles(docs), Edge(left, right, score))) <==>
      |docs[left] * docs[right] * RareShingles(docs)| as real / Min(|docs[left]|, |docs[right]|) as real < CONTAINMENT
  {
    hide RareShingles;
    var score := |docs[left] * docs[right] * RareShingles(docs)| as real / Min(|docs[left]|, |docs[right]|) as real;
    if score >= CONTAINMENT {
      assert IsEdge(docs, RareShingles(docs), Edge(left, right, score));
    }
  }

  lemma PostingSize(docs: seq<set<Shingle>>, s: Shingle)
    ensures |Posting(docs, s)| <= |Indexed(docs)|
  {
    var p := Posting(docs, s);
    PostingHolds(docs, s);
    DistinctSize(p);
    SubsetSize(Elements(p), Indexed(docs));
  }

  /** With at most ten documents no shingle is too common. */
  lemma FewDocumentsAllRare(docs: seq<set<Shingle>>, left: nat, right: nat)
    requires |Indexed(docs)| <= 10 && left < right < |docs|
    ensures docs[left] * docs[right] <= RareShingles(docs)
  {
    forall s | s in docs[left] * docs[right] ensures s in RareShingles(docs) {
      PostingSize(docs, s);
    }
  }

  /** So the search is exact on a small site. */
  lemma FewDocumentsExact(docs: seq<set<Shingle>>, edges: seq<Edge>, left: nat, right: nat)
    requires |Indexed(docs)| <= 10 && EdgesOf(docs, RareShingles(docs), edges)
    ensures (exists e :: e in edges && e.left == left && e.right == right) <==> TrulySimilar(docs, left, right)
  {
    if e :| e in edges && e.left == left && e.right == right {
      ReportedIsSimilar(docs, e);
    }
    if TrulySimilar(docs, left, right) {
      hide IsEdge, RareShingles, Indexed;
      FewDocumentsAllRare(docs, left, right);
      RarePairReportedIff(docs, left, right);
      assert Edge(left, right, Containment(docs, left, right)) in edges;
    }
  }

  lemma {:induction false} AlikePosting(docs: seq<set<Shingle>>, content: set<Shingle>, s: Shingle)
    requires forall i :: 0 <= i < |docs| ==> docs[i] == content
    requires s in content
    ensures |Posting(docs, s)| == |docs|
  {
    if docs != [] { AlikePosting(docs[..|docs| - 1], content, s); }
  }

  /** More than ten pages that are all alike: every shingle is too common and no pair is reported. */
  lemma AllAlikeMissed(docs: seq<set<Shingle>>, content: set<Shingle>)
    requires forall i :: 0 <= i < |docs| ==> docs[i] == content
    requires |docs| > 10 && content != {}
    ensures TrulySimilar(docs, 0, 1) && Containment(docs, 0, 1) == 1.0
    ensures EdgesOf(docs, RareShingles(docs), [])
  {
    AlikeSimilar(docs, content);
    AlikeNoneRare(docs, content);
    forall e ensures !IsEdge(docs, {}, e) {
      hide Posting;
      assert Shared(docs, {}, (e.left, e.right)) == {};
    }
  }

  lemma Whole(n: nat)
    requires n > 0
    ensures n as real / n as real == 1.0
  {
  }

  lemma AlikeSimilar(docs: seq<set<Shingle>>, content: set<Shingle>)
    requires forall i :: 0 <= i < |docs| ==> docs[i] == content
    requires |docs| > 10 && content != {}
    ensures TrulySimilar(docs, 0, 1) && Containment(docs, 0, 1) == 1.0
  {
    assert docs[0] * docs[1] == content;
    Whole(|content|);
  }

  lemma AlikeNoneRare(docs: seq<set<Shingle>>, content: set<Shingle>)
    requires forall i :: 0 <= i < |docs| ==> docs[i] == content
    requires |docs| > 10 && content != {}
    ensures RareShingles(docs) == {}
  {
    hide Posting;
    AtMost(|docs|, Indexed(docs));
    forall s | s in content ensures |Posting(docs, s)| > CommonLimit(|Indexed(docs)|) {
      AlikePosting(docs, content, s);
    }
  }

  lemma {:induction false} AtMost(n: nat, s: set<nat>)
    requires forall x :: x in s ==> x < n
    ensures |s| <= n
  {
    if n > 0 { AtMost(n - 1, s - {n - 1}); }
  }

  // ---------- the definition met ----------

  lemma DocumentIs(rows: seq<Row>, excluded: set<nat>, i: nat)
    requires i < |rows|
    ensures
      var document := Documents(rows, excluded)[i];
      if i in Compared(rows, excluded) then document == FiveGrams(rows[i].tokens) && document != {} else document == {}
  {
    var tokens := rows[i].tokens;
    if i !in excluded && rows[i].comparable {
      assert Shingles(tokens) == FiveGrams(tokens) by { ShinglesAre(tokens); }
      if |tokens| >= 5 {
        assert FiveFrom(tokens, 0) in FiveGrams(tokens);
      } else {
        assert FiveGrams(tokens) == {};
      }
    }
  }

  lemma ShinglesAre(tokens: seq<string>)
    ensures Shingles(tokens) == FiveGrams(tokens)
  {
    forall s ensures s in Shingles(tokens) <==> s in FiveGrams(tokens) {
      if s in Shingles(tokens) {
        var k: nat :| k <= |tokens| - SHINGLE_SIZE && Window(tokens, k) == s;
        assert FiveFrom(tokens, k) == s;
      }
      if s in FiveGrams(tokens) {
        var k: nat :| k + 5 <= |tokens| && FiveFrom(tokens, k) == s;
        assert Window(tokens, k) == s;
      }
    }
  }

  lemma IndexedIs(rows: seq<Row>, excluded: set<nat>)
    ensures Indexed(Documents(rows, excluded)) == Compared(rows, excluded)
  {
    hide Documents, FiveGrams;
    forall i: nat | i < |rows|
      ensures i in Indexed(Documents(rows, excluded)) <==> i in Compared(rows, excluded)
    {
      DocumentIs(rows, excluded, i);
    }
  }

  lemma PostingIs(rows: seq<Row>, excluded: set<nat>, s: Shingle)
    ensures |Posting(Documents(rows, excluded), s)| == |Holders(rows, excluded, s)|
  {
    hide Documents, FiveGrams, Posting;
    var docs := Documents(rows, excluded);
    PostingHolds(docs, s);
    DistinctSize(Posting(docs, s));
    forall i: nat ensures i in Posting(docs, s) <==> i in Holders(rows, excluded, s) {
      if i < |rows| { DocumentIs(rows, excluded, i); }
    }
    assert Elements(Posting(docs, s)) == Holders(rows, excluded, s);
  }

  lemma CountedIs(rows: seq<Row>, excluded: set<nat>, a: nat, b: nat)
    requires a < b && a in Compared(rows, excluded) && b in Compared(rows, excluded)
    ensures
      var docs := Documents(rows, excluded);
      && a < b < |docs| && Shared(docs, RareShingles(docs), (a, b)) == Counted(rows, excluded, a, b)
      && docs[a] == FiveGrams(rows[a].tokens) && docs[b] == FiveGrams(rows[b].tokens)
  {
    hide Documents, FiveGrams, Posting, Indexed, Holders;
    var docs := Documents(rows, excluded);
    DocumentIs(rows, excluded, a);
    DocumentIs(rows, excluded, b);
    IndexedIs(rows, excluded);
    forall s | s in docs[a] * docs[b] ensures s in RareShingles(docs) <==> Uncommon(rows, excluded, s) {
      PostingIs(rows, excluded, s);
    }
  }

  /** Quotients compared without division. */
  lemma Quotients(left: nat, right: nat, overlap: nat)
    requires left > 0 && right > 0
    ensures Similar(left, right, overlap) <==> Enough(left, right, overlap)
  {
    AtLeastRatio(Min(left, right), Max(left, right), 3, 4);
    AtLeastRatio(overlap, Min(left, right), 17, 20);
  }

  lemma AtLeastRatio(a: nat, b: nat, p: nat, q: nat)
    requires b > 0 && q > 0
    ensures a as real / b as real >= p as real / q as real <==> q * a >= p * b
  {
    var x, y := a as real / b as real, p as real / q as real;
    assert x * b as real == a as real && y * q as real == p as real;
    Scaled(x, y, b, q);
    assert x * b as real * q as real == (q * a) as real;
    assert y * q as real * b as real == (p * b) as real;
  }

  lemma Scaled(x: real, y: real, b: nat, q: nat)
    requires b > 0 && q > 0
    ensures x >= y <==> x * b as real * q as real >= y * q as real * b as real
  {
    var n := b as real * q as real;
    assert n > 0.0;
    assert x * b as real * q as real == x * n && y * q as real * b as real == y * n;
    if x >= y { assert x * n >= y * n; } else { assert x * n < y * n; }
  }

  lemma ScoreIs(score: real, shared: nat, size: nat)
    requires size > 0
    ensures score == shared as real / size as real <==> score * size as real == shared as real
  {
  }

  /** The index finds exactly the pairs of the definition. */
  lemma EdgeIs(rows: seq<Row>, excluded: set<nat>, e: Edge)
    ensures
      var docs := Documents(rows, excluded);
      IsEdge(docs, RareShingles(docs), e) <==> Overlapping(rows, excluded, e)
  {
    hide Documents, FiveGrams, RareShingles, Shared, Counted, Similar, Enough, Compared;
    var docs := Documents(rows, excluded);
    if e.left < e.right < |rows| {
      DocumentIs(rows, excluded, e.left);
      DocumentIs(rows, excluded, e.right);
      if e.left in Compared(rows, excluded) && e.right in Compared(rows, excluded) {
        CountedIs(rows, excluded, e.left, e.right);
        var left, right := |docs[e.left]|, |docs[e.right]|;
        var shared := |Counted(rows, excluded, e.left, e.right)|;
        Quotients(left, right, shared);
        ScoreIs(e.score, shared, Min(left, right));
      }
    } else {
      ComparedInRange(rows, excluded, e.right);
    }
  }

  lemma ComparedInRange(rows: seq<Row>, excluded: set<nat>, i: nat)
    ensures i in Compared(rows, excluded) ==> i < |rows|
  {
  }

  /** And similarity means what the definition says. */
  lemma TrulySimilarIs(rows: seq<Row>, excluded: set<nat>, a: nat, b: nat)
    ensures TrulySimilar(Documents(rows, excluded), a, b) <==> Alike(rows, excluded, a, b)
  {
    hide Documents, FiveGrams, Similar, Enough, Compared;
    var docs := Documents(rows, excluded);
    ComparedInRange(rows, excluded, b);
    if a < b < |rows| {
      DocumentIs(rows, excluded, a);
      DocumentIs(rows, excluded, b);
      if docs[a] != {} && docs[b] != {} {
        Quotients(|docs[a]|, |docs[b]|, |docs[a] * docs[b]|);
      }
    }
  }

  lemma EdgesAre(rows: seq<Row>, excluded: set<nat>, edges: seq<Edge>)
    requires EdgesOf(Documents(rows, excluded), RareShingles(Documents(rows, excluded)), edges)
    ensures Distinct(edges) && forall e :: e in edges <==> Overlapping(rows, excluded, e)
  {
    hide Documents, RareShingles, IsEdge, Overlapping, Distinct;
    forall e ensures e in edges <==> Overlapping(rows, excluded, e) {
      EdgeIs(rows, excluded, e);
    }
  }

  // ---------- the whole detection ----------

  /** Groups the pages whose content overlaps; edges are the pairs the index found. */
  method NearDuplicateGroups(rows: seq<Row>, excluded: set<nat>) returns (groups: seq<Group>, ghost edges: seq<Edge>)
    ensures Distinct(edges) && forall e :: e in edges <==> Overlapping(rows, excluded, e)
    ensures EdgesOf(Documents(rows, excluded), RareShingles(Documents(rows, excluded)), edges)
    ensures AllComponents(edges, groups) && Separate(groups) && Covered(groups) == Endpoints(edges)
  {
    hide EdgesOf, AllComponents, Separate, Covered, Endpoints, RareShingles, Overlapping, Distinct;
    hide PostingsOf, CountsOf, Rare, Positive, CommonLimit;
    ghost var docs := Documents(rows, excluded);
    var shingles, postings := BuildIndex(rows, excluded);
    var limit := CommonLimit(|shingles|);
    assert |shingles| == |shingles.Keys|;
    var counts := CountOverlaps(docs, postings, limit);
    RareCounts(docs, postings, counts);
    var pairs := SelectEdges(docs, RareShingles(docs), shingles, counts);
    EdgesAre(rows, excluded, pairs);
    groups := GroupPairs(pairs);
    edges := pairs;
  }

  /** A grouped page was compared, and its group holds another page that truly overlaps it. */
  lemma GroupedHasPartner(rows: seq<Row>, excluded: set<nat>, edges: seq<Edge>, groups: seq<Group>, g: Group, u: nat)
    requires EdgesOf(Documents(rows, excluded), RareShingles(Documents(rows, excluded)), edges)
    requires AllComponents(edges, groups) && Covered(groups) == Endpoints(edges)
    requires g in groups && u in g.members
    ensures u < |rows| && u !in excluded && rows[u].comparable
    ensures exists v :: v in g.members && v != u && TrulySimilar(Documents(rows, excluded), Min(u, v), Max(u, v))
  {
    hide Connected, TrulySimilar, RareShingles, Documents, Covered;
    var docs := Documents(rows, excluded);
    CoveredHas(groups, u);
    var e :| e in edges && (e.left == u || e.right == u);
    assert IsEdge(docs, RareShingles(docs), e);
    ReportedIsSimilar(docs, e);
    var v := if e.left == u then e.right else e.left;
    assert Joins(e, u, v);
    ConnectedSelf(edges, u);
    ConnectedStep(edges, u, u, v);
    assert Mates(edges, g.members) by { assert IsComponent(edges, g); }
  }

  lemma {:induction false} CountedHasEdge(edges: seq<Edge>, s: set<nat>, x: real)
    requires CountInside(edges, s, x) > 0
    ensures exists e :: e in edges && e.score == x
  {
    var before, e := edges[..|edges| - 1], edges[|edges| - 1];
    assert edges == before + [e];
    if CountInside(before, s, x) > 0 {
      CountedHasEdge(before, s, x);
      var d :| d in before && d.score == x;
      assert d in edges;
    } else {
      assert e in edges && e.score == x;
    }
  }

  /** Every score a group reports is at least the required containment. */
  lemma GroupScoresHigh(docs: seq<set<Shingle>>, edges: seq<Edge>, groups: seq<Group>, g: Group, x: real)
    requires EdgesOf(docs, RareShingles(docs), edges) && AllComponents(edges, groups)
    requires g in groups && x in g.scores
    ensures x >= CONTAINMENT
  {
    hide RareShingles;
    assert IsComponent(edges, g);
    assert multiset(g.scores)[x] > 0;
    CountedHasEdge(edges, Elements(g.members), x);
    var e :| e in edges && e.score == x;
    ReportedIsSimilar(docs, e);
  }

  // ---------- groups and chains of similar pages ----------

  ghost predicate SimilarPair(docs: seq<set<Shingle>>, a: nat, b: nat) {
    TrulySimilar(docs, Min(a, b), Max(a, b))
  }

  ghost predicate SimilarChain(docs: seq<set<Shingle>>, p: seq<nat>) {
    p != [] && forall i :: 0 <= i < |p| - 1 ==> SimilarPair(docs, p[i], p[i + 1])
  }

  /** Some chain of truly similar pairs joins a and b. */
  ghost predicate Resembles(docs: seq<set<Shingle>>, a: nat, b: nat) {
    exists p :: SimilarChain(docs, p) && p[0] == a && p[|p| - 1] == b
  }

  lemma LinkedIsSimilar(docs: seq<set<Shingle>>, edges: seq<Edge>, a: nat, b: nat)
    requires EdgesOf(docs, RareShingles(docs), edges) && Linked(edges, a, b)
    ensures SimilarPair(docs, a, b)
  {
    hide RareShingles, TrulySimilar;
    var e :| e in edges && Joins(e, a, b);
    assert IsEdge(docs, RareShingles(docs), e);
    ReportedIsSimilar(docs, e);
  }

  lemma ConnectedResembles(docs: seq<set<Shingle>>, edges: seq<Edge>, a: nat, b: nat)
    requires EdgesOf(docs, RareShingles(docs), edges) && Connected(edges, a, b)
    ensures Resembles(docs, a, b)
  {
    hide EdgesOf, Linked, SimilarPair, RareShingles;
    var p :| Chain(edges, p) && p[0] == a && p[|p| - 1] == b;
    forall i | 0 <= i < |p| - 1 ensures SimilarPair(docs, p[i], p[i + 1]) {
      LinkedIsSimilar(docs, edges, p[i], p[i + 1]);
    }
    assert SimilarChain(docs, p);
  }

  ghost predicate Together(groups: seq<Group>, a: nat, b: nat) {
    exists g :: g in groups && a in g.members && b in g.members
  }

  /** Pages in one group are joined by a chain of truly similar pairs. */
  lemma TogetherResembles(docs: seq<set<Shingle>>, edges: seq<Edge>, groups: seq<Group>, a: nat, b: nat)
    requires EdgesOf(docs, RareShingles(docs), edges) && AllComponents(edges, groups)
    requires Together(groups, a, b)
    ensures Resembles(docs, a, b)
  {
    hide EdgesOf, RareShingles, Connected, Resembles;
    var g :| g in groups && a in g.members && b in g.members;
    assert IsComponent(edges, g);
    ConnectedResembles(docs, edges, a, b);
  }

  /** No similar pair shares a shingle that is too common. */
  ghost predicate SimilarPairsRare(docs: seq<set<Shingle>>) {
    forall l: nat, r: nat :: TrulySimilar(docs, l, r) ==> docs[l] * docs[r] <= RareShingles(docs)
  }

  lemma SimilarIsLinked(docs: seq<set<Shingle>>, edges: seq<Edge>, a: nat, b: nat)
    requires SimilarPairsRare(docs) && EdgesOf(docs, RareShingles(docs), edges) && SimilarPair(docs, a, b)
    ensures Linked(edges, a, b)
  {
    hide IsEdge, RareShingles;
    var l, r := Min(a, b), Max(a, b);
    RarePairReportedIff(docs, l, r);
    var e := Edge(l, r, Containment(docs, l, r));
    assert e in edges;
    assert Joins(e, a, b);
  }

  lemma ResemblesConnected(docs: seq<set<Shingle>>, edges: seq<Edge>, a: nat, b: nat)
    requires SimilarPairsRare(docs) && EdgesOf(docs, RareShingles(docs), edges) && Resembles(docs, a, b)
    ensures Connected(edges, a, b)
    ensures a != b ==> exists u :: Linked(edges, a, u)
  {
    hide EdgesOf, Linked, SimilarPair, RareShingles, SimilarPairsRare;
    var p :| SimilarChain(docs, p) && p[0] == a && p[|p| - 1] == b;
    forall i | 0 <= i < |p| - 1 ensures Linked(edges, p[i], p[i + 1]) {
      SimilarIsLinked(docs, edges, p[i], p[i + 1]);
    }
    assert Chain(edges, p);
    if a != b { assert Linked(edges, p[0], p[1]); }
  }

  /**
   If no similar pair shares a shingle that is too common, two pages share a group exactly if a chain of
   truly similar pairs joins them.
   */
  lemma RareTogetherIff(docs: seq<set<Shingle>>, edges: seq<Edge>, groups: seq<Group>, a: nat, b: nat)
    requires SimilarPairsRare(docs) && EdgesOf(docs, RareShingles(docs), edges)
    requires AllComponents(edges, groups) && Covered(groups) == Endpoints(edges)
    requires a != b
    ensures Together(groups, a, b) <==> Resembles(docs, a, b)
  {
    hide EdgesOf, RareShingles, SimilarPairsRare, AllComponents, Covered, Endpoints, Connected, Linked, Resembles;
    if Together(groups, a, b) { TogetherResembles(docs, edges, groups, a, b); }
    if Resembles(docs, a, b) {
      ResemblesConnected(docs, edges, a, b);
      EndpointsLinked(edges, a);
      TogetherIffConnected(edges, groups, a, b);
    }
  }

  /** On a small site that is always so. */
  lemma FewDocumentsTogetherIff(docs: seq<set<Shingle>>, edges: seq<Edge>, groups: seq<Group>, a: nat, b: nat)
    requires |Indexed(docs)| <= 10 && EdgesOf(docs, RareShingles(docs), edges)
    requires AllComponents(edges, groups) && Covered(groups) == Endpoints(edges)
    requires a != b
    ensures Together(groups, a, b) <==> Resembles(docs, a, b)
  {
    hide EdgesOf, RareShingles, Indexed, AllComponents, Covered, Endpoints, Together, Resembles;
    forall l: nat, r: nat | TrulySimilar(docs, l, r) ensures docs[l] * docs[r] <= RareShingles(docs) {
      FewDocumentsAllRare(docs, l, r);
    }
    RareTogetherIff(docs, edges, groups, a, b);
  }

  /** Every truly similar pair ended up in one group, be it through other pages. */
  ghost predicate SimilarTogether(docs: seq<set<Shingle>>, groups: seq<Group>) {
    forall l: nat, r: nat :: TrulySimilar(docs, l, r) ==> Together(groups, l, r)
  }

  ghost predicate GroupsExact(docs: seq<set<Shingle>>, groups: seq<Group>) {
    forall a: nat, b: nat :: a != b ==> (Together(groups, a, b) <==> Resembles(docs, a, b))
  }

  lemma TogetherConnected(edges: seq<Edge>, groups: seq<Group>, a: nat, b: nat)
    requires AllComponents(edges, groups) && (Together(groups, a, b) || Together(groups, b, a))
    ensures Connected(edges, a, b) && a in Covered(groups) && b in Covered(groups)
  {
    hide Connected, Covered;
    var g :| g in groups && a in g.members && b in g.members;
    assert IsComponent(edges, g);
    CoveredHas(groups, a);
    CoveredHas(groups, b);
  }

  lemma {:induction false} SimilarChainConnected(docs: seq<set<Shingle>>, edges: seq<Edge>, groups: seq<Group>,
                                                 p: seq<nat>)
    requires AllComponents(edges, groups) && SimilarTogether(docs, groups) && SimilarChain(docs, p)
    ensures Connected(edges, p[0], p[|p| - 1])
    ensures |p| > 1 ==> p[0] in Covered(groups)
  {
    if |p| == 1 {
      ConnectedSelf(edges, p[0]);
    } else {
      hide Connected, Covered, AllComponents, Together, TrulySimilar;
      var before, u, v := p[..|p| - 1], p[|p| - 2], p[|p| - 1];
      SimilarChainConnected(docs, edges, groups, before);
      assert SimilarPair(docs, u, v);
      TogetherConnected(edges, groups, u, v);
      ConnectedTrans(edges, p[0], u, v);
    }
  }

  /** The groups are exact, as chains of truly similar pairs, exactly if no similar pair was torn apart. */
  lemma GroupsExactIff(docs: seq<set<Shingle>>, edges: seq<Edge>, groups: seq<Group>)
    requires EdgesOf(docs, RareShingles(docs), edges)
    requires AllComponents(edges, groups) && Covered(groups) == Endpoints(edges)
    ensures GroupsExact(docs, groups) <==> SimilarTogether(docs, groups)
  {
    hide EdgesOf, RareShingles, AllComponents, Covered, Endpoints, Connected, TrulySimilar, Together;
    if GroupsExact(docs, groups) {
      forall l: nat, r: nat | TrulySimilar(docs, l, r) ensures Together(groups, l, r) {
        SimilarResembles(docs, l, r);
      }
    }
    if SimilarTogether(docs, groups) {
      forall a: nat, b: nat | a != b ensures Together(groups, a, b) <==> Resembles(docs, a, b) {
        ExactAt(docs, edges, groups, a, b);
      }
    }
  }

  lemma SimilarResembles(docs: seq<set<Shingle>>, l: nat, r: nat)
    requires TrulySimilar(docs, l, r)
    ensures l != r && Resembles(docs, l, r)
  {
    assert SimilarPair(docs, l, r);
    assert SimilarChain(docs, [l, r]);
  }

  lemma ExactAt(docs: seq<set<Shingle>>, edges: seq<Edge>, groups: seq<Group>, a: nat, b: nat)
    requires EdgesOf(docs, RareShingles(docs), edges) && SimilarTogether(docs, groups) && a != b
    requires AllComponents(edges, groups) && Covered(groups) == Endpoints(edges)
    ensures Together(groups, a, b) <==> Resembles(docs, a, b)
  {
    hide EdgesOf, RareShingles, AllComponents, Covered, Endpoints, Connected, SimilarTogether, SimilarPair;
    if Together(groups, a, b) { TogetherResembles(docs, edges, groups, a, b); }
    if Resembles(docs, a, b) {
      var p :| SimilarChain(docs, p) && p[0] == a && p[|p| - 1] == b;
      SimilarChainConnected(docs, edges, groups, p);
      TogetherIffConnected(edges, groups, a, b);
    }
  }
}
