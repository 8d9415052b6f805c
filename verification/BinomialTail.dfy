/**
 The exact lower tail of the binomial distribution, over the reals.
 */
module BinomialTail {

  predicate Probability(p: real) { 0.0 <= p <= 1.0 }

  function Pow(x: real, n: nat): real {
    if n == 0 then 1.0 else x * Pow(x, n - 1)
  }

  /** The number of ways to choose k out of n, by Pascal's rule. */
  function Comb(n: nat, k: nat): nat {
    if k == 0 then 1 else if n == 0 then 0 else Comb(n - 1, k - 1) + Comb(n - 1, k)
  }

  function Product(a: real, b: real, c: real): real {
    a * b * c
  }

  /** The probability of exactly v successes; no more than n can succeed. */
  function Term(v: nat, n: nat, p: real): real {
    if v > n then 0.0 else Product(Comb(n, v) as real, Pow(p, v), Pow(1.0 - p, n - v))
  }

  function LowerTail(successes: nat, trials: nat, p: real): real {
    Term(successes, trials, p) + (if successes == 0 then 0.0 else LowerTail(successes - 1, trials, p))
  }

  /** The average of a and b, with weight p on b. */
  function Mix(p: real, a: real, b: real): real {
    (1.0 - p) * a + p * b
  }

  lemma MixSum(p: real, a: real, b: real, c: real, d: real)
    ensures Mix(p, a, b) + Mix(p, c, d) == Mix(p, a + c, b + d)
  {
  }

  /** At most s of n independent trials succeed: look at the last trial first. */
  ghost function AtMost(s: int, n: nat, p: real): real {
    if s < 0 then 0.0
    else if n == 0 then 1.0
    else Mix(p, AtMost(s, n - 1, p), AtMost(s - 1, n - 1, p))
  }

  lemma {:induction false} CombTop(n: nat, k: nat)
    requires k >= n
    ensures Comb(n, k) == if k == n then 1 else 0
  {
    if n > 0 && k > 0 {
      CombTop(n - 1, k - 1);
      CombTop(n - 1, k);
    }
  }

  lemma {:induction false} PowNonNegative(x: real, n: nat)
    requires x >= 0.0
    ensures Pow(x, n) >= 0.0
  {
    if n > 0 { PowNonNegative(x, n - 1); }
  }

  lemma Distribute(c: real, d: real, a: real, b: real, p: real, q: real)
    requires q == 1.0 - p
    ensures Product(c + d, p * a, q * b) == Mix(p, Product(d, p * a, b), Product(c, a, q * b))
  {
    var x, y := p * a, q * b;
    assert (c + d) * x * y == c * x * y + d * x * y;
    assert c * (p * a) * y == p * (c * a * y);
    assert d * x * (q * b) == q * (d * x * b);
  }

  lemma PowNext(x: real, n: nat)
    ensures Pow(x, n + 1) == x * Pow(x, n)
  {
  }

  lemma TermRuleInside(v: nat, n: nat, p: real)
    requires 0 < v <= n
    ensures Term(v, n + 1, p) == Mix(p, Term(v, n, p), Term(v - 1, n, p))
  {
    var q := 1.0 - p;
    var a, b := Pow(p, v - 1), Pow(q, n - v);
    var c, d := Comb(n, v - 1) as real, Comb(n, v) as real;
    assert Comb(n + 1, v) as real == c + d;
    hide Comb, Pow, Mix, Product;
    PowNext(p, v - 1);
    PowNext(q, n - v);
    assert n - (v - 1) == n - v + 1;
    Distribute(c, d, a, b, p, q);
  }

  /** Pascal's rule for the terms. */
  lemma TermRule(v: nat, n: nat, p: real)
    ensures Term(v, n + 1, p) == Mix(p, Term(v, n, p), if v == 0 then 0.0 else Term(v - 1, n, p))
  {
    if v == 0 {
      PowNext(1.0 - p, n);
    } else if v <= n {
      TermRuleInside(v, n, p);
    } else if v == n + 1 {
      CombTop(n + 1, v);
      CombTop(n, v - 1);
      PowNext(p, n);
    }
  }

  ghost function TailBelow(s: nat, n: nat, p: real): real {
    if s == 0 then 0.0 else LowerTail(s - 1, n, p)
  }

  lemma {:induction false} TailRule(s: nat, n: nat, p: real)
    ensures LowerTail(s, n + 1, p) == Mix(p, LowerTail(s, n, p), TailBelow(s, n, p))
  {
    hide Term, Mix;
    TermRule(s, n, p);
    if s > 0 {
      TailRule(s - 1, n, p);
      MixSum(p, Term(s, n, p), Term(s - 1, n, p), LowerTail(s - 1, n, p), TailBelow(s - 1, n, p));
    }
  }

  lemma {:induction false} NoTrials(s: nat, p: real)
    ensures LowerTail(s, 0, p) == 1.0
  {
    if s > 0 { NoTrials(s - 1, p); }
  }

  /** The sum of terms is the probability of at most that many successes. */
  lemma {:induction false} TailIsAtMost(s: nat, n: nat, p: real)
    ensures LowerTail(s, n, p) == AtMost(s, n, p)
  {
    if n == 0 {
      NoTrials(s, p);
    } else {
      hide LowerTail, Mix;
      TailRule(s, n - 1, p);
      TailIsAtMost(s, n - 1, p);
      if s > 0 { TailIsAtMost(s - 1, n - 1, p); }
    }
  }

  /** All the terms together make one, whatever p is. */
  lemma {:induction false} TermsSumToOne(n: nat, p: real)
    ensures LowerTail(n, n, p) == 1.0
  {
    if n > 0 {
      TermsSumToOne(n - 1, p);
      TailRule(n, n - 1, p);
      assert LowerTail(n, n - 1, p) == LowerTail(n - 1, n - 1, p);
    }
  }

  lemma ProductNonNegative(a: real, b: real, c: real)
    requires a >= 0.0 && b >= 0.0 && c >= 0.0
    ensures Product(a, b, c) >= 0.0
  {
    assert a * b >= 0.0;
  }

  lemma TermNonNegative(v: nat, n: nat, p: real)
    requires Probability(p)
    ensures Term(v, n, p) >= 0.0
  {
    if v <= n {
      PowNonNegative(p, v);
      PowNonNegative(1.0 - p, n - v);
      ProductNonNegative(Comb(n, v) as real, Pow(p, v), Pow(1.0 - p, n - v));
    }
  }

  lemma {:induction false} TailMonotone(s: nat, t: nat, n: nat, p: real)
    requires Probability(p) && s <= t
    ensures LowerTail(s, n, p) <= LowerTail(t, n, p)
  {
    if s < t {
      TailMonotone(s, t - 1, n, p);
      TermNonNegative(t, n, p);
    }
  }

  lemma {:induction false} TailNonNegative(s: nat, n: nat, p: real)
    requires Probability(p)
    ensures LowerTail(s, n, p) >= 0.0
  {
    TermNonNegative(s, n, p);
    if s > 0 { TailNonNegative(s - 1, n, p); }
  }

  /** The tail is itself a probability. */
  lemma TailIsProbability(s: nat, n: nat, p: real)
    requires Probability(p) && s <= n
    ensures Probability(LowerTail(s, n, p))
  {
    TailNonNegative(s, n, p);
    TailMonotone(s, n, n, p);
    TermsSumToOne(n, p);
  }

  lemma Scale(x: real, a: real, b: real)
    requires x >= 0.0 && a <= b
    ensures x * a <= x * b
  {
  }

  /** Moving weight from the larger to the smaller value, with both values lowered, lowers the average. */
  lemma Average(p: real, r: real, high: real, low: real, high2: real, low2: real)
    requires 0.0 <= p <= r <= 1.0
    requires high2 <= high && low2 <= low && low2 <= high2
    ensures Mix(r, high2, low2) <= Mix(p, high, low)
  {
    Raise(p, high, low, high2, low2);
    Shift(p, r, high2, low2);
  }

  lemma Raise(p: real, high: real, low: real, high2: real, low2: real)
    requires Probability(p) && high2 <= high && low2 <= low
    ensures Mix(p, high2, low2) <= Mix(p, high, low)
  {
    var q := 1.0 - p;
    var a, b, c, d := q * high2, q * high, p * low2, p * low;
    assert a <= b by { Scale(q, high2, high); }
    assert c <= d by { Scale(p, low2, low); }
    assert a + c <= b + d;
    assert Mix(p, high2, low2) == a + c;
    assert Mix(p, high, low) == b + d;
  }

  lemma Shift(p: real, r: real, high: real, low: real)
    requires p <= r && low <= high
    ensures Mix(r, high, low) <= Mix(p, high, low)
  {
    Scale(r - p, low, high);
  }

  /** A larger success probability makes few successes less likely. */
  lemma {:induction false} TailAntitone(s: nat, n: nat, p: real, r: real)
    requires 0.0 <= p <= r <= 1.0
    ensures LowerTail(s, n, r) <= LowerTail(s, n, p)
  {
    if n == 0 {
      NoTrials(s, p);
      NoTrials(s, r);
    } else {
      hide LowerTail, Mix;
      TailRule(s, n - 1, p);
      TailRule(s, n - 1, r);
      TailAntitone(s, n - 1, p, r);
      TailNonNegative(s, n - 1, r);
      if s > 0 {
        TailAntitone(s - 1, n - 1, p, r);
        TailMonotone(s - 1, s, n - 1, r);
      }
      Average(p, r, LowerTail(s, n - 1, p), TailBelow(s, n - 1, p), LowerTail(s, n - 1, r), TailBelow(s, n - 1, r));
    }
  }
}
