/**
 Duplicate content on one site: pages with the same content hash first, and among the others the
 pages that nearly agree.
 */
module DuplicateContent {
  import opened Sorting
  import opened ConnectedGroups
  import opened NearDuplicates
  import opened SimilarPages

  predicate Hashed(row: Row) { row.comparable && row.hash != "" }

  /** The comparable pages with hash h, in order. */
  ghost function ClassOf(rows: seq<Row>, h: string): seq<nat> {
    if rows == [] then [] else
      var last := rows[|rows| - 1];
      ClassOf(rows[..|rows| - 1], h) + (if Hashed(last) && last.hash == h then [|rows| - 1] else [])
  }

  lemma {:induction false} ClassHolds(rows: seq<Row>, h: string)
    ensures forall i: nat :: i in ClassOf(rows, h) <==> i < |rows| && Hashed(rows[i]) && rows[i].hash == h
    ensures Ascending(ClassOf(rows, h)) && Distinct(ClassOf(rows, h))
  {
    if rows != [] {
      var before := rows[..|rows| - 1];
      ClassHolds(before, h);
      assert forall i :: 0 <= i < |before| ==> rows[i] == before[i];
      var c := ClassOf(before, h);
      forall k | 0 <= k < |c| ensures c[k] < |before| {
        assert c[k] in c;
      }
      AscendingDistinct(ClassOf(rows, h));
    }
  }

  lemma AscendingDistinct(g: seq<nat>)
    requires Ascending(g)
    ensures Distinct(g)
  {
  }

  function Bucket(byHash: map<string, seq<nat>>, h: string): seq<nat> {
    if h in byHash then byHash[h] else []
  }

  ghost predicate BucketsOf(byHash: map<string, seq<nat>>, rows: seq<Row>) {
    && (forall h :: Bucket(byHash, h) == ClassOf(rows, h))
    && forall h :: h in byHash ==> byHash[h] != []
  }

  lemma BucketsNext(byHash: map<string, seq<nat>>, rows: seq<Row>, row: Row)
    requires BucketsOf(byHash, rows)
    ensures BucketsOf(if Hashed(row) then byHash[row.hash := Bucket(byHash, row.hash) + [|rows|]] else byHash,
                      rows + [row])
  {
    var next := if Hashed(row) then byHash[row.hash := Bucket(byHash, row.hash) + [|rows|]] else byHash;
    forall h ensures Bucket(next, h) == ClassOf(rows + [row], h) {
      assert (rows + [row])[..|rows|] == rows;
      assert Bucket(byHash, h) == ClassOf(rows, h);
    }
  }

  method GroupByHash(rows: seq<Row>) returns (byHash: map<string, seq<nat>>)
    ensures BucketsOf(byHash, rows)
  {
    byHash := map[];
    for index := 0 to |rows|
      invariant BucketsOf(byHash, rows[..index])
    {
      hide BucketsOf, Bucket;
      assert rows[..index + 1] == rows[..index] + [rows[index]];
      BucketsNext(byHash, rows[..index], rows[index]);
      if Hashed(rows[index]) {
        byHash := byHash[rows[index].hash := Bucket(byHash, rows[index].hash) + [index]];
      }
    }
    assert rows[..|rows|] == rows;
  }

  /** Exactly the hash classes of two or more pages. */
  ghost predicate ExactGroups(rows: seq<Row>, groups: seq<seq<nat>>) {
    && Distinct(groups)
    && forall g :: g in groups <==> IsClass(rows, g)
  }

  ghost predicate IsClass(rows: seq<Row>, g: seq<nat>) {
    |g| > 1 && exists h :: ClassOf(rows, h) == g
  }

  /** The groups from the hashes dealt with so far. */
  ghost predicate ClassesFrom(rows: seq<Row>, groups: seq<seq<nat>>, done: set<string>) {
    && Distinct(groups)
    && forall g :: g in groups <==> |g| > 1 && exists h :: h in done && ClassOf(rows, h) == g
  }

  lemma ClassesApart(rows: seq<Row>, h: string, k: string)
    requires h != k && ClassOf(rows, h) != []
    ensures ClassOf(rows, h) != ClassOf(rows, k)
  {
    ClassHolds(rows, h);
    ClassHolds(rows, k);
    assert ClassOf(rows, h)[0] in ClassOf(rows, h);
  }

  lemma ClassAdded(rows: seq<Row>, groups: seq<seq<nat>>, done: set<string>, h: string)
    requires ClassesFrom(rows, groups, done) && h !in done
    ensures ClassesFrom(rows, if |ClassOf(rows, h)| > 1 then groups + [ClassOf(rows, h)] else groups, done + {h})
  {
    hide ClassOf;
    var g := ClassOf(rows, h);
    if |g| > 1 {
      forall k | k in done ensures ClassOf(rows, k) != g {
        ClassesApart(rows, h, k);
      }
      DistinctSnoc(groups, g);
    }
  }

  /** Exactly the comparable pages with hash h, in ascending order. */
  ghost predicate SameHash(rows: seq<Row>, h: string, g: seq<nat>) {
    && (forall i, j :: 0 <= i < j < |g| ==> g[i] < g[j])
    && forall i: nat :: i in g <==> i < |rows| && rows[i].comparable && rows[i].hash == h
  }

  lemma AscendingUnique(a: seq<nat>, b: seq<nat>)
    requires Ascending(a) && Ascending(b) && forall i :: i in a <==> i in b
    ensures a == b
  {
    var leq := (x: nat, y: nat) => x <= y;
    forall x ensures multiset(a)[x] == multiset(b)[x] {
      DistinctCount(a, x);
      DistinctCount(b, x);
    }
    assert multiset(a) == multiset(b);
    SortedUnique(a, b, leq);
  }

  /** The hash classes are what sharing a hash makes them. */
  lemma ClassIs(rows: seq<Row>, g: seq<nat>)
    requires |g| > 1
    ensures IsClass(rows, g) <==> exists h :: h != "" && SameHash(rows, h, g)
  {
    hide ClassOf;
    if IsClass(rows, g) {
      var h :| ClassOf(rows, h) == g;
      ClassHolds(rows, h);
      assert g[0] in g;
      assert SameHash(rows, h, g);
    }
    if h :| h != "" && SameHash(rows, h, g) {
      ClassHolds(rows, h);
      AscendingUnique(g, ClassOf(rows, h));
    }
  }

  lemma GroupsAre(rows: seq<Row>, groups: seq<seq<nat>>)
    requires ExactGroups(rows, groups)
    ensures Distinct(groups)
    ensures forall g :: g in groups <==> |g| > 1 && exists h :: h != "" && SameHash(rows, h, g)
  {
    hide Distinct, ClassOf, SameHash;
    forall g ensures g in groups <==> |g| > 1 && exists h :: h != "" && SameHash(rows, h, g) {
      assert g in groups <==> IsClass(rows, g);
      if |g| > 1 { ClassIs(rows, g); }
    }
  }

  method ExactDuplicateGroups(rows: seq<Row>) returns (groups: seq<seq<nat>>)
    ensures Distinct(groups)
    ensures forall g :: g in groups <==> |g| > 1 && exists h :: h != "" && SameHash(rows, h, g)
    ensures ExactGroups(rows, groups)
  {
    hide ClassesFrom, ClassOf;
    var byHash := GroupByHash(rows);
    groups := [];
    var rest := byHash.Keys;
    assert ClassesFrom(rows, [], {}) by { NoClasses(rows); }
    assert byHash.Keys - rest == {};
    while rest != {}
      invariant rest <= byHash.Keys
      invariant ClassesFrom(rows, groups, byHash.Keys - rest)
    {
      var h :| h in rest;
      assert byHash.Keys - (rest - {h}) == byHash.Keys - rest + {h};
      assert Bucket(byHash, h) == ClassOf(rows, h);
      ClassAdded(rows, groups, byHash.Keys - rest, h);
      if |byHash[h]| > 1 {
        groups := groups + [byHash[h]];
      }
      rest := rest - {h};
    }
    assert byHash.Keys - rest == byHash.Keys;
    AllClasses(rows, groups, byHash);
    GroupsAre(rows, groups);
  }

  lemma NoClasses(rows: seq<Row>)
    ensures ClassesFrom(rows, [], {})
  {
  }

  lemma AllClasses(rows: seq<Row>, groups: seq<seq<nat>>, byHash: map<string, seq<nat>>)
    requires ClassesFrom(rows, groups, byHash.Keys) && BucketsOf(byHash, rows)
    ensures ExactGroups(rows, groups)
  {
    hide ClassOf;
    forall h | |ClassOf(rows, h)| > 1 ensures h in byHash {
      assert Bucket(byHash, h) == ClassOf(rows, h);
    }
  }

  /** Two comparable pages share an exact group exactly if their content has the same hash. */
  lemma ShareExactGroupIff(rows: seq<Row>, groups: seq<seq<nat>>, a: nat, b: nat)
    requires ExactGroups(rows, groups) && a < |rows| && b < |rows| && a != b
    ensures (exists g :: g in groups && a in g && b in g) <==>
      rows[a].comparable && rows[b].comparable && rows[a].hash == rows[b].hash != ""
  {
    hide ClassOf;
    if g :| g in groups && a in g && b in g {
      assert IsClass(rows, g);
      var h :| ClassOf(rows, h) == g;
      ClassHolds(rows, h);
    }
    if Hashed(rows[a]) && Hashed(rows[b]) && rows[a].hash == rows[b].hash {
      var g := ClassOf(rows, rows[a].hash);
      ClassHolds(rows, rows[a].hash);
      TwoMembers(g, a, b);
      assert IsClass(rows, g);
    }
  }

  lemma TwoMembers(g: seq<nat>, a: nat, b: nat)
    requires a in g && b in g && a != b
    ensures |g| > 1
  {
  }

  ghost function Grouped(groups: seq<seq<nat>>): set<nat> {
    set g, i | g in groups && i in g :: i
  }

  /** The whole detection: exact groups first, near groups among the rest. */
  method DetectDuplicates(rows: seq<Row>) returns (exact: seq<seq<nat>>, near: seq<Group>, ghost edges: seq<Edge>)
    ensures forall g :: g in exact <==> |g| > 1 && exists h :: h != "" && SameHash(rows, h, g)
    ensures forall e :: e in edges <==> Overlapping(rows, Grouped(exact), e)
    ensures ExactGroups(rows, exact)
    ensures EdgesOf(Documents(rows, Grouped(exact)), RareShingles(Documents(rows, Grouped(exact))), edges)
    ensures AllComponents(edges, near) && Separate(near) && Covered(near) == Endpoints(edges)
  {
    hide *;
    exact := ExactDuplicateGroups(rows);
    var excluded := set g, i | g in exact && i in g :: i;
    assert excluded == Grouped(exact) by { GroupedIs(exact); }
    near, edges := NearDuplicateGroups(rows, excluded);
  }

  lemma GroupedIs(groups: seq<seq<nat>>)
    ensures Grouped(groups) == set g, i | g in groups && i in g :: i
  {
  }

  /** No page is reported both as an exact and as a near duplicate. */
  lemma NeverBoth(rows: seq<Row>, exact: seq<seq<nat>>, near: seq<Group>, edges: seq<Edge>, g: seq<nat>, n: Group,
                  u: nat)
    requires EdgesOf(Documents(rows, Grouped(exact)), RareShingles(Documents(rows, Grouped(exact))), edges)
    requires AllComponents(edges, near) && Covered(near) == Endpoints(edges)
    requires g in exact && n in near && u in n.members
    ensures u !in g
  {
    hide Documents, RareShingles, EdgesOf, AllComponents, Covered, Endpoints, TrulySimilar;
    GroupedHasPartner(rows, Grouped(exact), edges, near, n, u);
  }
}
