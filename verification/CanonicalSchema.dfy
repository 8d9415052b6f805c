/**
 Structured data in canonical form, so that two crawls of a page can be compared: the order of the
 top-level items and of the lists directly under "@graph" and "@type" does not matter.
 */
module CanonicalSchema {
  import opened Basics
  import opened Sorting

  const NUMERAL_CHARS := {'0', '1', '2', '3', '4', '5', '6', '7', '8', '9', '+', '-', '.', 'e', 'E'}

  predicate IsNumeral(s: string) {
    s != "" && forall i :: 0 <= i < |s| ==> s[i] in NUMERAL_CHARS
  }

  /** A number as it is written; numbers are the same if they are written the same. */
  type Numeral = s: string | IsNumeral(s) witness "0"

  datatype Json =
    | Null
    | Bool(b: bool)
    | Number(literal: Numeral)
    | Text(s: string)
    | List(items: seq<Json>)
    | Object(fields: map<string, Json>)

  // ---------- permutations ----------

  ghost predicate IsPermutation(p: seq<nat>, n: nat) {
    |p| == n && Distinct(p) && forall i :: 0 <= i < n ==> p[i] < n
  }

  ghost predicate Reorders<T(!new)>(p: seq<nat>, a: seq<T>, b: seq<T>) {
    IsPermutation(p, |a|) && |a| == |b| && forall i :: 0 <= i < |a| ==> a[i] == b[p[i]]
  }

  function Without<T>(b: seq<T>, j: nat): seq<T>
    requires j < |b|
  {
    b[..j] + b[j + 1..]
  }

  /** A position of Without(b, j), as a position of b. */
  function Around(k: nat, j: nat): nat {
    if k < j then k else k + 1
  }

  lemma WithoutCount<T>(b: seq<T>, j: nat)
    requires j < |b|
    ensures multiset(b) == multiset{b[j]} + multiset(Without(b, j))
  {
    assert b == b[..j] + [b[j]] + b[j + 1..];
  }

  lemma Shifted(p: seq<nat>, n: nat, j: nat) returns (q: seq<nat>)
    requires IsPermutation(p, n) && j <= n
    ensures q == [j] + seq(n, i requires 0 <= i < n => Around(p[i], j))
    ensures IsPermutation(q, n + 1)
  {
    q := [j] + seq(n, i requires 0 <= i < n => Around(p[i], j));
    forall i, k | 0 <= i < k < |q| ensures q[i] != q[k] {
      if i > 0 { assert p[i - 1] != p[k - 1]; }
    }
  }

  lemma PeelFirst<T(!new)>(a: seq<T>, b: seq<T>, j: nat)
    requires multiset(a) == multiset(b) && a != [] && j < |b| && b[j] == a[0]
    ensures multiset(a[1..]) == multiset(Without(b, j))
  {
    WithoutCount(b, j);
    HeadAndTail(a);
    assert multiset(Without(b, j)) == multiset(b) - multiset{b[j]};
  }

  lemma PutFirst<T(!new)>(a: seq<T>, b: seq<T>, j: nat, rest: seq<nat>) returns (p: seq<nat>)
    requires a != [] && j < |b| && b[j] == a[0] && |a| == |b|
    requires Reorders(rest, a[1..], Without(b, j))
    ensures Reorders(p, a, b)
  {
    p := Shifted(rest, |a| - 1, j);
    forall i | 0 <= i < |a| ensures a[i] == b[p[i]] {
      if i > 0 { assert a[1..][i - 1] == Without(b, j)[rest[i - 1]]; }
    }
  }

  /** Sequences with the same multiset of elements differ by a permutation only. */
  lemma {:induction false} PermutationExists<T(!new)>(a: seq<T>, b: seq<T>) returns (p: seq<nat>)
    requires multiset(a) == multiset(b)
    ensures Reorders(p, a, b)
  {
    SameLength(a, b);
    if a == [] {
      p := [];
    } else {
      hide Reorders, Without;
      assert a[0] in multiset(b);
      var j :| 0 <= j < |b| && b[j] == a[0];
      PeelFirst(a, b, j);
      var rest := PermutationExists(a[1..], Without(b, j));
      p := PutFirst(a, b, j, rest);
    }
  }

  function Closed(k: nat, j: nat): nat {
    if k > j then k - 1 else k
  }

  lemma Unshifted(p: seq<nat>, n: nat) returns (q: seq<nat>)
    requires IsPermutation(p, n + 1)
    ensures q == seq(n, i requires 0 <= i < n => Closed(p[i + 1], p[0]))
    ensures IsPermutation(q, n)
  {
    q := seq(n, i requires 0 <= i < n => Closed(p[i + 1], p[0]));
    forall i, k | 0 <= i < k < n ensures q[i] != q[k] {
      assert p[i + 1] != p[k + 1] && p[0] != p[i + 1] && p[0] != p[k + 1];
    }
    forall i | 0 <= i < n ensures q[i] < n {
      assert p[0] != p[i + 1];
    }
  }

  lemma {:induction false} PermutationKeepsMultiset<T(!new)>(a: seq<T>, b: seq<T>, p: seq<nat>)
    requires Reorders(p, a, b)
    ensures multiset(a) == multiset(b)
  {
    if a != [] {
      var j := p[0];
      var q := Unshifted(p, |a| - 1);
      WithoutCount(b, j);
      assert a == [a[0]] + a[1..];
      forall i | 0 <= i < |a| - 1 ensures a[1..][i] == Without(b, j)[q[i]] {
        assert p[0] != p[i + 1];
      }
      PermutationKeepsMultiset(a[1..], Without(b, j), q);
    }
  }

  // ---------- the canonical form ----------

  predicate AnyOrder(key: string) {
    key == "@graph" || key == "@type"
  }

  /** Sorts the lists whose order is free; leq compares canonical values by their serialisation. */
  function Canonical(value: Json, unordered: bool, leq: (Json, Json) -> bool): Json
    decreases value
  {
    match value
    case Object(fields) => Object(map k | k in fields :: Canonical(fields[k], AnyOrder(k), leq))
    case List(items) =>
      var children := seq(|items|, i requires 0 <= i < |items| => Canonical(items[i], false, leq));
      List(if unordered then Sort(children, leq) else children)
    case _ => value
  }

  function CanonicalItems(items: seq<Json>, leq: (Json, Json) -> bool): (children: seq<Json>)
    ensures |children| == |items|
    ensures forall i :: 0 <= i < |items| ==> children[i] == Canonical(items[i], false, leq)
  {
    seq(|items|, i requires 0 <= i < |items| => Canonical(items[i], false, leq))
  }

  function CanonicalSchema(value: seq<Json>, leq: (Json, Json) -> bool): seq<Json> {
    Sort(CanonicalItems(value, leq), leq)
  }

  // ---------- what the order may not hide ----------

  /** The same data, up to the order of lists that have none. */
  ghost predicate Same(a: Json, b: Json, unordered: bool)
    decreases a
  {
    match a
    case Object(fields) =>
      && b.Object? && b.fields.Keys == fields.Keys
      && forall k :: k in fields ==> Same(fields[k], b.fields[k], k == "@graph" || k == "@type")
    case List(items) =>
      && b.List? && |b.items| == |items|
      && if unordered
         then exists p :: IsPermutation(p, |items|) && forall i :: 0 <= i < |items| ==>
           Same(items[i], b.items[p[i]], false)
         else forall i :: 0 <= i < |items| ==> Same(items[i], b.items[i], false)
    case _ => a == b
  }

  ghost predicate SameList(a: seq<Json>, b: seq<Json>) {
    |a| == |b| && exists p :: IsPermutation(p, |a|) && forall i :: 0 <= i < |a| ==> Same(a[i], b[p[i]], false)
  }

  ghost predicate Order(leq: (Json, Json) -> bool) {
    TotalPreorder(leq) && Antisymmetric(leq)
  }

  // ---------- idempotence ----------

  lemma CanonicalOfList(items: seq<Json>, unordered: bool, leq: (Json, Json) -> bool)
    ensures Canonical(List(items), unordered, leq) ==
            List(if unordered then Sort(CanonicalItems(items, leq), leq) else CanonicalItems(items, leq))
  {
    assert CanonicalItems(items, leq) == seq(|items|, i requires 0 <= i < |items| => Canonical(items[i], false, leq));
  }

  /** A list of canonical values is left alone. */
  lemma ItemsStay(items: seq<Json>, leq: (Json, Json) -> bool)
    requires forall c :: c in items ==> Canonical(c, false, leq) == c
    ensures CanonicalItems(items, leq) == items
  {
  }

  lemma SortedItemsStay(items: seq<Json>, leq: (Json, Json) -> bool)
    requires Order(leq) && forall c :: c in items ==> Canonical(c, false, leq) == c
    ensures CanonicalSchema(Sort(items, leq), leq) == Sort(items, leq)
  {
    SortSorts(items, leq);
    forall c | c in Sort(items, leq) ensures Canonical(c, false, leq) == c {
      assert c in multiset(items);
    }
    ItemsStay(Sort(items, leq), leq);
    SortOfSorted(Sort(items, leq), leq);
  }

  /** Canonical values are left alone. */
  lemma {:induction false} CanonicalIdempotent(value: Json, unordered: bool, leq: (Json, Json) -> bool)
    requires Order(leq)
    ensures Canonical(Canonical(value, unordered, leq), unordered, leq) == Canonical(value, unordered, leq)
    decreases value
  {
    match value
    case Object(fields) =>
      var once := map k | k in fields :: Canonical(fields[k], AnyOrder(k), leq);
      forall k | k in fields ensures Canonical(once[k], AnyOrder(k), leq) == once[k] {
        CanonicalIdempotent(fields[k], AnyOrder(k), leq);
      }
      assert (map k | k in once :: Canonical(once[k], AnyOrder(k), leq)) == once;
    case List(items) =>
      var children := CanonicalItems(items, leq);
      forall c | c in children ensures Canonical(c, false, leq) == c {
        var i :| 0 <= i < |items| && c == children[i];
        CanonicalIdempotent(items[i], false, leq);
      }
      ListIdempotent(items, unordered, leq);
    case _ =>
  }

  lemma ListIdempotent(items: seq<Json>, unordered: bool, leq: (Json, Json) -> bool)
    requires Order(leq)
    requires forall c :: c in CanonicalItems(items, leq) ==> Canonical(c, false, leq) == c
    ensures Canonical(Canonical(List(items), unordered, leq), unordered, leq) == Canonical(List(items), unordered, leq)
  {
    hide Canonical, Order, CanonicalItems, Sort;
    var children := CanonicalItems(items, leq);
    CanonicalOfList(items, unordered, leq);
    if unordered {
      SortedItemsStay(children, leq);
      CanonicalOfList(Sort(children, leq), unordered, leq);
    } else {
      ItemsStay(children, leq);
      CanonicalOfList(children, unordered, leq);
    }
  }

  lemma SchemaIdempotent(value: seq<Json>, leq: (Json, Json) -> bool)
    requires Order(leq)
    ensures CanonicalSchema(CanonicalSchema(value, leq), leq) == CanonicalSchema(value, leq)
  {
    var children := CanonicalItems(value, leq);
    forall c | c in children ensures Canonical(c, false, leq) == c {
      var i :| 0 <= i < |value| && c == children[i];
      CanonicalIdempotent(value[i], false, leq);
    }
    SortedItemsStay(children, leq);
  }

  // ---------- equal canonical forms ----------

  /** All items agree, as far as the canonical form is concerned. */
  ghost predicate ItemsAgree(a: seq<Json>, b: seq<Json>, leq: (Json, Json) -> bool) {
    forall x, y :: x in a && y in b ==> (Canonical(x, false, leq) == Canonical(y, false, leq) <==> Same(x, y, false))
  }

  lemma MatchedByMultiset(a: seq<Json>, b: seq<Json>, leq: (Json, Json) -> bool)
    requires ItemsAgree(a, b, leq)
    requires multiset(CanonicalItems(a, leq)) == multiset(CanonicalItems(b, leq))
    ensures SameList(a, b)
  {
    hide Canonical, Same;
    var ca, cb := CanonicalItems(a, leq), CanonicalItems(b, leq);
    var p := PermutationExists(ca, cb);
    forall i | 0 <= i < |a| ensures Same(a[i], b[p[i]], false) {
      assert ca[i] == cb[p[i]];
    }
  }

  lemma MultisetOfMatched(a: seq<Json>, b: seq<Json>, leq: (Json, Json) -> bool)
    requires ItemsAgree(a, b, leq) && SameList(a, b)
    ensures multiset(CanonicalItems(a, leq)) == multiset(CanonicalItems(b, leq))
  {
    hide Canonical, Same;
    var ca, cb := CanonicalItems(a, leq), CanonicalItems(b, leq);
    var p :| IsPermutation(p, |a|) && forall i :: 0 <= i < |a| ==> Same(a[i], b[p[i]], false);
    forall i | 0 <= i < |a| ensures ca[i] == cb[p[i]] {
      assert Same(a[i], b[p[i]], false);
    }
    PermutationKeepsMultiset(ca, cb, p);
  }

  /** Sorted canonical items are equal exactly if the items match up under some permutation. */
  lemma SortedItemsAgree(a: seq<Json>, b: seq<Json>, leq: (Json, Json) -> bool)
    requires Order(leq) && ItemsAgree(a, b, leq)
    ensures CanonicalSchema(a, leq) == CanonicalSchema(b, leq) <==> SameList(a, b)
  {
    hide ItemsAgree, SameList, Sort, CanonicalItems;
    SortIgnoresOrder(CanonicalItems(a, leq), CanonicalItems(b, leq), leq);
    if multiset(CanonicalItems(a, leq)) == multiset(CanonicalItems(b, leq)) {
      MatchedByMultiset(a, b, leq);
    }
    if SameList(a, b) {
      MultisetOfMatched(a, b, leq);
    }
  }

  lemma OrderedItemsAgree(a: seq<Json>, b: seq<Json>, leq: (Json, Json) -> bool)
    requires ItemsAgree(a, b, leq)
    ensures CanonicalItems(a, leq) == CanonicalItems(b, leq) <==> Same(List(a), List(b), false)
  {
    hide Canonical;
    var ca, cb := CanonicalItems(a, leq), CanonicalItems(b, leq);
    if ca == cb {
      forall i | 0 <= i < |a| ensures Same(a[i], b[i], false) {
        assert ca[i] == cb[i];
      }
    }
  }

  lemma FreeOrder(a: seq<Json>, b: seq<Json>)
    ensures Same(List(a), List(b), true) <==> SameList(a, b)
  {
    if SameList(a, b) {
      var p :| IsPermutation(p, |a|) && forall i :: 0 <= i < |a| ==> Same(a[i], b[p[i]], false);
      assert Same(List(a), List(b), true);
    }
  }

  lemma ListsAgree(a: seq<Json>, b: seq<Json>, unordered: bool, leq: (Json, Json) -> bool)
    requires Order(leq) && ItemsAgree(a, b, leq)
    ensures Canonical(List(a), unordered, leq) == Canonical(List(b), unordered, leq) <==>
      Same(List(a), List(b), unordered)
  {
    hide Canonical, ItemsAgree, CanonicalItems, Order, Same, SameList, Sort;
    CanonicalOfList(a, unordered, leq);
    CanonicalOfList(b, unordered, leq);
    if unordered {
      SortedItemsAgree(a, b, leq);
      FreeOrder(a, b);
    } else {
      OrderedItemsAgree(a, b, leq);
    }
  }

  lemma ObjectsAgree(a: map<string, Json>, b: map<string, Json>, leq: (Json, Json) -> bool)
    requires forall k :: k in a && k in b ==>
      (Canonical(a[k], AnyOrder(k), leq) == Canonical(b[k], AnyOrder(k), leq) <==> Same(a[k], b[k], AnyOrder(k)))
    ensures Canonical(Object(a), false, leq) == Canonical(Object(b), false, leq) <==> Same(Object(a), Object(b), false)
  {
    var ca, cb := Canonical(Object(a), false, leq).fields, Canonical(Object(b), false, leq).fields;
    assert ca.Keys == a.Keys && cb.Keys == b.Keys;
    if ca == cb {
      forall k | k in a ensures k in b && Same(a[k], b[k], AnyOrder(k)) {
        assert ca[k] == cb[k];
      }
    }
  }

  /** Two values have equal canonical forms exactly if they are the same up to the free orders. */
  lemma {:induction false} CanonicalEqualIff(a: Json, b: Json, unordered: bool, leq: (Json, Json) -> bool)
    requires Order(leq)
    ensures Canonical(a, unordered, leq) == Canonical(b, unordered, leq) <==> Same(a, b, unordered)
    decreases a
  {
    if a.List? && b.List? {
      forall x, y | x in a.items && y in b.items
        ensures Canonical(x, false, leq) == Canonical(y, false, leq) <==> Same(x, y, false)
      {
        CanonicalEqualIff(x, y, false, leq);
      }
      ListsAgree(a.items, b.items, unordered, leq);
    } else if a.Object? && b.Object? {
      forall k | k in a.fields && k in b.fields
        ensures Canonical(a.fields[k], AnyOrder(k), leq) == Canonical(b.fields[k], AnyOrder(k), leq) <==>
          Same(a.fields[k], b.fields[k], AnyOrder(k))
      {
        CanonicalEqualIff(a.fields[k], b.fields[k], AnyOrder(k), leq);
      }
      ObjectsAgree(a.fields, b.fields, leq);
    }
  }

  /** Two schema lists have equal canonical forms exactly if they differ in free orders only. */
  lemma SchemaEqualIff(a: seq<Json>, b: seq<Json>, leq: (Json, Json) -> bool)
    requires Order(leq)
    ensures CanonicalSchema(a, leq) == CanonicalSchema(b, leq) <==> SameList(a, b)
  {
    forall x, y | x in a && y in b
      ensures Canonical(x, false, leq) == Canonical(y, false, leq) <==> Same(x, y, false)
    {
      CanonicalEqualIff(x, y, false, leq);
    }
    SortedItemsAgree(a, b, leq);
  }

  /** The canonical form loses nothing: it is the data it was made from, up to the free orders. */
  lemma CanonicalSame(value: Json, unordered: bool, leq: (Json, Json) -> bool)
    requires Order(leq)
    ensures Same(value, Canonical(value, unordered, leq), unordered)
  {
    hide Canonical, Same, Order;
    CanonicalIdempotent(value, unordered, leq);
    CanonicalEqualIff(value, Canonical(value, unordered, leq), unordered, leq);
  }

  lemma SchemaSame(value: seq<Json>, leq: (Json, Json) -> bool)
    requires Order(leq)
    ensures SameList(value, CanonicalSchema(value, leq)) && SortedBy(CanonicalSchema(value, leq), leq)
  {
    hide SameList;
    SchemaIdempotent(value, leq);
    SchemaEqualIff(value, CanonicalSchema(value, leq), leq);
    SortSorts(CanonicalItems(value, leq), leq);
  }

  // ---------- the order by serialisation ----------

  /** Strings in dictionary order. */
  predicate TextLeq(a: string, b: string) {
    a == "" || (b != "" && (a[0] < b[0] || (a[0] == b[0] && TextLeq(a[1..], b[1..]))))
  }

  lemma {:induction false} TextTotal(a: string, b: string)
    ensures TextLeq(a, b) || TextLeq(b, a)
    ensures TextLeq(a, b) && TextLeq(b, a) ==> a == b
  {
    if a != "" && b != "" {
      TextTotal(a[1..], b[1..]);
      assert a == [a[0]] + a[1..] && b == [b[0]] + b[1..];
    }
  }

  lemma {:induction false} TextTransitive(a: string, b: string, c: string)
    requires TextLeq(a, b) && TextLeq(b, c)
    ensures TextLeq(a, c)
  {
    if a != "" && b != "" && c != "" && a[0] == b[0] && b[0] == c[0] {
      TextTransitive(a[1..], b[1..], c[1..]);
    }
  }

  ghost predicate Injective(dumps: Json -> string) {
    forall a, b :: dumps(a) == dumps(b) ==> a == b
  }

  function ByText(dumps: Json -> string): (Json, Json) -> bool {
    (a, b) => TextLeq(dumps(a), dumps(b))
  }

  lemma ByTextOrders(dumps: Json -> string)
    requires Injective(dumps)
    ensures Order(ByText(dumps))
  {
    var leq := ByText(dumps);
    forall a, b ensures (leq(a, b) || leq(b, a)) && (leq(a, b) && leq(b, a) ==> a == b) {
      TextTotal(dumps(a), dumps(b));
    }
    forall a, b, c | leq(a, b) && leq(b, c) ensures leq(a, c) {
      TextTransitive(dumps(a), dumps(b), dumps(c));
    }
  }

  // ---------- comparing snapshots ----------

  datatype Snapshot = Snapshot(schema: Option<seq<Json>>)

  datatype Change = NewUrl | StructuredDataChanged(before: seq<Json>, after: seq<Json>)

  function SchemaOf(snapshot: Snapshot): seq<Json> {
    match snapshot.schema
    case None => []
    case Some(data) => data
  }

  /** The part of the comparison that looks at structured data. */
  function CompareSchema(previous: Option<Snapshot>, current: Snapshot, dumps: Json -> string): seq<Change> {
    if previous.None? then [NewUrl] else
      var before := CanonicalSchema(SchemaOf(previous.value), ByText(dumps));
      var after := CanonicalSchema(SchemaOf(current), ByText(dumps));
      if before != after then [StructuredDataChanged(before, after)] else []
  }

  /** The structured data of a snapshot; none at all counts as an empty list. */
  ghost predicate HasSchema(snapshot: Snapshot, data: seq<Json>) {
    snapshot.schema == Some(data) || (snapshot.schema == None && data == [])
  }

  /** At most one change is reported, and it holds the old and the new data in sorted order. */
  ghost predicate Tells(changes: seq<Change>, before: seq<Json>, after: seq<Json>, leq: (Json, Json) -> bool) {
    if SameList(before, after) then changes == [] else
      && |changes| == 1 && changes[0].StructuredDataChanged?
      && SameList(before, changes[0].before) && SortedBy(changes[0].before, leq)
      && SameList(after, changes[0].after) && SortedBy(changes[0].after, leq)
  }

  /** A change is reported exactly if the data differ beyond the free orders. */
  lemma ChangeReportedIff(previous: Snapshot, current: Snapshot, before: seq<Json>, after: seq<Json>,
                          dumps: Json -> string)
    requires Injective(dumps) && HasSchema(previous, before) && HasSchema(current, after)
    ensures Tells(CompareSchema(Some(previous), current, dumps), before, after, ByText(dumps))
  {
    hide SameList, CanonicalSchema, Order, SortedBy, ByText;
    ByTextOrders(dumps);
    SchemaEqualIff(before, after, ByText(dumps));
    SchemaSame(before, ByText(dumps));
    SchemaSame(after, ByText(dumps));
  }
}
