/**
 Intent probabilities: scores become rounded shares of one whole, the rounding residue goes to the
 winner, and a winner that is not clearly ahead is reported as mixed. Shares count millionths.
 */
module Probabilities {
  const UNIT: int := 1_000_000
  const CLEAR_LEAD: int := 150_000
  const SUM_TOLERANCE: int := 1_000

  /** To the nearest integer, halves to the even one. */
  function Round(x: real): (r: int)
    ensures -0.5 <= r as real - x <= 0.5
    ensures r as real - x == 0.5 || x - r as real == 0.5 ==> r % 2 == 0
  {
    var f := x.Floor;
    if x - f as real < 0.5 || (x - f as real == 0.5 && f % 2 == 0) then f else f + 1
  }

  function Total(values: seq<real>): real {
    if values == [] then 0.0 else values[0] + Total(values[1..])
  }

  function Sum(shares: seq<int>): int {
    if shares == [] then 0 else shares[0] + Sum(shares[1..])
  }

  function Exact(value: real, total: real): real
    requires total > 0.0
  {
    value / total * UNIT as real
  }

  function Shares(values: seq<real>, total: real): (shares: seq<int>)
    requires total > 0.0
    ensures |shares| == |values|
    ensures forall i :: 0 <= i < |values| ==> shares[i] == Round(Exact(values[i], total))
  {
    seq(|values|, i requires 0 <= i < |values| => Round(Exact(values[i], total)))
  }

  /** The first position of the largest share. */
  function Winner(shares: seq<int>): (w: nat)
    requires shares != []
    ensures w < |shares|
    ensures forall i :: 0 <= i < |shares| ==> shares[i] <= shares[w]
    ensures forall i :: 0 <= i < w ==> shares[i] < shares[w]
  {
    if |shares| == 1 then 0 else
      var v := Winner(shares[..|shares| - 1]);
      if shares[v] < shares[|shares| - 1] then |shares| - 1 else v
  }

  /** The winner takes what the others leave of the whole. */
  function Corrected(shares: seq<int>): (c: seq<int>)
    requires shares != []
    ensures |c| == |shares|
  {
    var w := Winner(shares);
    shares[w := shares[w] + (UNIT - Sum(shares))]
  }

  // ---------- the sum ----------

  lemma {:induction false} SumUpdate(shares: seq<int>, i: nat, x: int)
    requires i < |shares|
    ensures Sum(shares[i := x]) == Sum(shares) - shares[i] + x
  {
    if i == 0 {
      assert shares[i := x][1..] == shares[1..];
    } else {
      SumUpdate(shares[1..], i - 1, x);
      assert shares[i := x][1..] == shares[1..][i - 1 := x];
    }
  }

  /** Whatever the rounding did, the corrected shares make one whole. */
  lemma CorrectedSum(shares: seq<int>)
    requires shares != []
    ensures Sum(Corrected(shares)) == UNIT
  {
    SumUpdate(shares, Winner(shares), shares[Winner(shares)] + (UNIT - Sum(shares)));
  }

  lemma ExactAdd(a: real, b: real, total: real)
    requires total > 0.0
    ensures Exact(a + b, total) == Exact(a, total) + Exact(b, total)
  {
    assert (a + b) / total == a / total + b / total;
  }

  lemma ExactWhole(total: real)
    requires total > 0.0
    ensures Exact(total, total) == UNIT as real && Exact(0.0, total) == 0.0
  {
    assert total / total == 1.0;
  }

  /** Every rounding is off by at most one half. */
  lemma {:induction false} RoundingDrift(values: seq<real>, total: real)
    requires total > 0.0
    ensures var drift := Sum(Shares(values, total)) as real - Exact(Total(values), total);
            -(|values| as real) <= 2.0 * drift <= |values| as real
  {
    if values == [] {
      ExactWhole(total);
    } else {
      hide Exact, Round;
      RoundingDrift(values[1..], total);
      ExactAdd(values[0], Total(values[1..]), total);
      assert Shares(values, total)[1..] == Shares(values[1..], total);
      assert -0.5 <= Round(Exact(values[0], total)) as real - Exact(values[0], total) <= 0.5;
    }
  }

  lemma {:induction false} TotalPositive(values: seq<real>)
    requires values != [] && forall i :: 0 <= i < |values| ==> values[i] > 0.0
    ensures Total(values) > 0.0
    ensures forall i :: 0 <= i < |values| ==> values[i] <= Total(values)
  {
    if |values| > 1 { TotalPositive(values[1..]); }
  }

  /** The residue is at most half a millionth for each label. */
  lemma ResidueSmall(values: seq<real>)
    requires Total(values) > 0.0
    ensures -|values| <= 2 * (UNIT - Sum(Shares(values, Total(values)))) <= |values|
  {
    RoundingDrift(values, Total(values));
    ExactWhole(Total(values));
  }

  // ---------- the range ----------

  lemma {:induction false} SumAtMost(shares: seq<int>, top: int)
    requires forall i :: 0 <= i < |shares| ==> shares[i] <= top
    ensures Sum(shares) <= |shares| * top
  {
    if shares != [] {
      SumAtMost(shares[1..], top);
      assert |shares| * top == (|shares| - 1) * top + top;
    }
  }

  lemma {:induction false} PartAtMostSum(shares: seq<int>, k: nat)
    requires forall i :: 0 <= i < |shares| ==> shares[i] >= 0
    ensures Sum(shares) >= 0
    ensures k < |shares| ==> shares[k] <= Sum(shares)
  {
    if shares != [] {
      PartAtMostSum(shares[1..], if k == 0 then 0 else k - 1);
    }
  }

  lemma ShareNonNegative(value: real, total: real)
    requires value >= 0.0 && total > 0.0
    ensures Round(Exact(value, total)) >= 0
  {
    assert value / total >= 0.0;
  }

  /** The winner's share is too large for the residue to push it below zero. */
  lemma WinnerStaysPositive(shares: seq<int>)
    requires 0 < |shares| <= 1_000
    requires -|shares| <= 2 * (UNIT - Sum(shares)) <= |shares|
    ensures Corrected(shares)[Winner(shares)] > 0
  {
    var top := shares[Winner(shares)];
    SumAtMost(shares, top);
    if top <= 500 {
      assert |shares| * top <= 1_000 * 500 by { Product(|shares|, top); }
    }
  }

  lemma Product(a: int, b: int)
    requires 0 <= a <= 1_000 && b <= 500
    ensures a * b <= 1_000 * 500
  {
    if b < 0 { assert a * b <= 0; } else { assert a * b <= 1_000 * b; }
  }

  /** Every corrected share lies between zero and one whole. */
  lemma CorrectedInRange(values: seq<real>, i: nat)
    requires 0 < |values| <= 1_000 && forall i :: 0 <= i < |values| ==> values[i] > 0.0
    requires i < |values|
    ensures Total(values) > 0.0
    ensures 0 <= Corrected(Shares(values, Total(values)))[i] <= UNIT
  {
    hide Round, Exact, Total, Sum;
    TotalPositive(values);
    var shares := Shares(values, Total(values));
    ResidueSmall(values);
    WinnerStaysPositive(shares);
    forall j | 0 <= j < |values| ensures Corrected(shares)[j] >= 0 {
      ShareNonNegative(values[j], Total(values));
    }
    CorrectedSum(shares);
    PartAtMostSum(Corrected(shares), i);
  }

  /** How far a share is from the exact one: half a millionth, and for the winner the residue too. */
  lemma ShareError(values: seq<real>, i: nat)
    requires i < |values| && Total(values) > 0.0
    ensures
      var shares := Shares(values, Total(values));
      var error := Corrected(shares)[i] as real - Exact(values[i], Total(values));
      var allowed := if i == Winner(shares) then |values| as real + 1.0 else 1.0;
      -allowed <= 2.0 * error <= allowed
  {
    hide Exact, Total, Sum, Round;
    ResidueSmall(values);
    assert -0.5 <= Round(Exact(values[i], Total(values))) as real - Exact(values[i], Total(values)) <= 0.5;
  }
}
