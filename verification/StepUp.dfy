/**
 The step-up procedure that keeps the false-discovery rate: of m p-values in ascending order it
 accepts the first k, for the largest k whose p-value is at most k/m of the allowed rate.
 */
module StepUp {
  import opened Sorting

  const MAX_FALSE_DISCOVERY_RATE := 0.10

  function Line(k: nat, m: nat): real
    requires m > 0
  {
    k as real / m as real * MAX_FALSE_DISCOVERY_RATE
  }

  lemma LineRises(k: nat, l: nat, m: nat)
    requires m > 0 && k <= l
    ensures Line(k, m) <= Line(l, m)
  {
    assert k as real / m as real <= l as real / m as real;
  }

  /** Under the line, without division. */
  lemma UnderLine(p: real, k: nat, m: nat)
    requires m > 0
    ensures p <= Line(k, m) <==> p * m as real <= k as real * 0.10
  {
    LineTimes(k, m);
    Times(p, Line(k, m), m as real);
  }

  lemma Times(a: real, b: real, n: real)
    requires n > 0.0
    ensures a <= b <==> a * n <= b * n
  {
    assert b * n - a * n == (b - a) * n;
    if a <= b { assert (b - a) * n >= 0.0; } else { assert (a - b) * n > 0.0; }
  }

  lemma LineTimes(k: nat, m: nat)
    requires m > 0
    ensures Line(k, m) * m as real == k as real * 0.10
  {
    assert k as real / m as real * m as real == k as real;
  }

  /** How many of the values are at most t. */
  ghost function Count(ps: seq<real>, t: real): (r: nat)
    ensures r <= |ps|
  {
    if ps == [] then 0 else (if ps[0] <= t then 1 else 0) + Count(ps[1..], t)
  }

  /** Enough values are under the line at k; this asks nothing of their order. */
  ghost predicate Reached(ps: seq<real>, k: nat)
    requires ps != []
  {
    Count(ps, Line(k, |ps|)) >= k
  }

  ghost function LargestReached(ps: seq<real>, bound: nat): nat
    requires ps != []
  {
    if bound == 0 || Reached(ps, bound) then bound else LargestReached(ps, bound - 1)
  }

  /** The number of discoveries, without reference to a ranking. */
  ghost function Discoveries(ps: seq<real>): nat {
    if ps == [] then 0 else LargestReached(ps, |ps|)
  }

  predicate Ascends(a: real, b: real) { a <= b }

  lemma {:induction false} LargestReachedIs(ps: seq<real>, bound: nat, k: nat)
    requires ps != []
    ensures LargestReached(ps, bound) <= bound
    ensures LargestReached(ps, bound) > 0 ==> Reached(ps, LargestReached(ps, bound))
    ensures LargestReached(ps, bound) < k <= bound ==> !Reached(ps, k)
  {
    if bound > 0 && !Reached(ps, bound) { LargestReachedIs(ps, bound - 1, k); }
  }

  lemma {:induction false} CountRises(ps: seq<real>, t: real, u: real)
    requires t <= u
    ensures Count(ps, t) <= Count(ps, u)
  {
    if ps != [] { CountRises(ps[1..], t, u); }
  }

  lemma {:induction false} CountAll(ps: seq<real>, t: real)
    requires forall i :: 0 <= i < |ps| ==> ps[i] > t
    ensures Count(ps, t) == 0
  {
    if ps != [] { CountAll(ps[1..], t); }
  }

  /** In ascending order, at least k values are at most t exactly if the k-th one is. */
  lemma {:induction false} SortedCount(ps: seq<real>, t: real, k: nat)
    requires SortedBy(ps, Ascends) && 1 <= k <= |ps|
    ensures ps[k - 1] <= t <==> Count(ps, t) >= k
  {
    if ps[0] > t {
      assert Ascends(ps[0], ps[0]);
      forall i | 0 <= i < |ps| ensures ps[i] > t {
        if i > 0 { assert Ascends(ps[0], ps[i]); }
      }
      CountAll(ps, t);
    } else if k > 1 {
      SortedCount(ps[1..], t, k - 1);
    }
  }

  lemma {:induction false} CountInsert(x: real, ps: seq<real>, t: real)
    ensures Count(Insert(x, ps, Ascends), t) == (if x <= t then 1 else 0) + Count(ps, t)
  {
    assert ([x] + ps)[1..] == ps;
    if ps != [] && !Ascends(x, ps[0]) {
      CountInsert(x, ps[1..], t);
      assert ([ps[0]] + Insert(x, ps[1..], Ascends))[1..] == Insert(x, ps[1..], Ascends);
    }
  }

  lemma {:induction false} CountSort(ps: seq<real>, t: real)
    ensures Count(Sort(ps, Ascends), t) == Count(ps, t)
  {
    if ps != [] {
      CountSort(ps[1..], t);
      CountInsert(ps[0], Sort(ps[1..], Ascends), t);
    }
  }

  lemma AscendsOrder()
    ensures TotalPreorder(Ascends) && Antisymmetric(Ascends)
  {
  }

  /** The count depends on the values only, not on their order. */
  lemma CountIgnoresOrder(ps: seq<real>, qs: seq<real>, t: real)
    requires multiset(ps) == multiset(qs)
    ensures Count(ps, t) == Count(qs, t)
  {
    CountSort(ps, t);
    CountSort(qs, t);
    AscendsOrder();
    SortIgnoresOrder(ps, qs, Ascends);
  }

  /** So the number of discoveries does not depend on how equal values were ordered. */
  lemma DiscoveriesIgnoreOrder(ps: seq<real>, qs: seq<real>)
    requires multiset(ps) == multiset(qs)
    ensures Discoveries(ps) == Discoveries(qs)
  {
    SameLength(ps, qs);
    if ps != [] {
      var k, l := Discoveries(ps), Discoveries(qs);
      LargestReachedIs(ps, |ps|, l);
      LargestReachedIs(qs, |qs|, k);
      CountIgnoresOrder(ps, qs, Line(k, |ps|));
      CountIgnoresOrder(ps, qs, Line(l, |ps|));
    }
  }

  lemma {:induction false} CountLowered(ps: seq<real>, qs: seq<real>, t: real)
    requires |ps| == |qs| && forall i :: 0 <= i < |ps| ==> qs[i] <= ps[i]
    ensures Count(ps, t) <= Count(qs, t)
  {
    if ps != [] { CountLowered(ps[1..], qs[1..], t); }
  }

  /** Lowering p-values never loses a discovery. */
  lemma DiscoveriesLowered(ps: seq<real>, qs: seq<real>)
    requires |ps| == |qs| && forall i :: 0 <= i < |ps| ==> qs[i] <= ps[i]
    ensures Discoveries(ps) <= Discoveries(qs)
  {
    if ps != [] {
      var k := Discoveries(ps);
      LargestReachedIs(ps, |ps|, k);
      LargestReachedIs(qs, |qs|, k);
      CountLowered(ps, qs, Line(k, |ps|));
    }
  }

  /** Exactly the discoveries are under their own line, so a tie is never split. */
  lemma DiscoveriesUnderLine(ps: seq<real>)
    requires ps != []
    ensures Count(ps, Line(Discoveries(ps), |ps|)) == Discoveries(ps)
  {
    var k := Discoveries(ps);
    LargestReachedIs(ps, |ps|, k + 1);
    if Count(ps, Line(k, |ps|)) > k {
      LineRises(k, k + 1, |ps|);
      CountRises(ps, Line(k, |ps|), Line(k + 1, |ps|));
      assert false;
    }
  }

  /** Walks the ranking and remembers the last rank under the line. */
  method CountAccepted(ordered: seq<real>) returns (accepted: nat)
    requires SortedBy(ordered, Ascends)
    ensures accepted <= |ordered|
    ensures accepted > 0 ==> ordered[accepted - 1] * |ordered| as real <= accepted as real * 0.10
    ensures forall i :: accepted <= i < |ordered| ==> ordered[i] * |ordered| as real > (i + 1) as real * 0.10
    ensures accepted == Discoveries(ordered)
    ensures ordered != [] ==> forall i :: 0 <= i < |ordered| ==>
      (i < accepted <==> ordered[i] <= Line(accepted, |ordered|))
  {
    hide Line;
    accepted := 0;
    for rank := 1 to |ordered| + 1
      invariant accepted < rank
      invariant accepted > 0 ==> ordered[accepted - 1] <= Line(accepted, |ordered|)
      invariant forall k :: accepted < k < rank ==> ordered[k - 1] > Line(k, |ordered|)
    {
      if ordered[rank - 1] <= Line(rank, |ordered|) {
        accepted := rank;
      }
    }
    if ordered != [] {
      LastUnderLine(ordered, accepted);
      LastPlainly(ordered, accepted);
    }
  }

  lemma LastPlainly(ordered: seq<real>, k: nat)
    requires ordered != [] && LastRank(ordered, k)
    ensures k > 0 ==> ordered[k - 1] * |ordered| as real <= k as real * 0.10
    ensures forall i :: k <= i < |ordered| ==> ordered[i] * |ordered| as real > (i + 1) as real * 0.10
  {
    hide Line;
    var m := |ordered|;
    if k > 0 { UnderLine(ordered[k - 1], k, m); }
    forall i | k <= i < m ensures ordered[i] * m as real > (i + 1) as real * 0.10 {
      assert ordered[i + 1 - 1] > Line(i + 1, m);
      UnderLine(ordered[i], i + 1, m);
    }
  }

  ghost predicate LastRank(ordered: seq<real>, k: nat)
    requires ordered != []
  {
    && k <= |ordered|
    && (k > 0 ==> ordered[k - 1] <= Line(k, |ordered|))
    && forall l :: k < l <= |ordered| ==> ordered[l - 1] > Line(l, |ordered|)
  }

  lemma LastUnderLine(ordered: seq<real>, k: nat)
    requires ordered != [] && SortedBy(ordered, Ascends) && LastRank(ordered, k)
    ensures k == Discoveries(ordered)
    ensures forall i :: 0 <= i < |ordered| ==> (i < k <==> ordered[i] <= Line(k, |ordered|))
  {
    var d := Discoveries(ordered);
    LargestReachedIs(ordered, |ordered|, k);
    if k > 0 { SortedCount(ordered, Line(k, |ordered|), k); }
    if d > 0 { SortedCount(ordered, Line(d, |ordered|), d); }
    DiscoveriesUnderLine(ordered);
    forall i | 0 <= i < |ordered| ensures i < k <==> ordered[i] <= Line(k, |ordered|) {
      SortedCount(ordered, Line(k, |ordered|), i + 1);
    }
  }
}
