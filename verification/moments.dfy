/**
 Moment statistics: the mean and standard deviation of one node's belief vector
 against its numeric state titles, the covariance read off a joint table, and
 the correlation. The square root is the numeric library's and is kept abstract
 as the parameter `sqrt`.
 */
module Moments {
  import opened Network
  import opened Sums
  import opened Tables

  /** A belief vector with its mean and standard deviation (`[belief, mn, std]`). */
  datatype Prior = Prior(belief: seq<real>, mean: real, std: real)

  /** Σ values[j]·p[j]. */
  function Mean(values: seq<real>, p: seq<real>): real
    requires |values| == |p|
  {
    Sum(seq(|p|, j requires 0 <= j < |p| => values[j] * p[j]))
  }

  /** The terms Σ (values[j] − mn)²·p[j] is made of. */
  function SpreadTerms(values: seq<real>, p: seq<real>, mn: real): (s: seq<real>)
    requires |values| == |p|
    ensures |s| == |p|
  {
    seq(|p|, j requires 0 <= j < |p| => (values[j] - mn) * (values[j] - mn) * p[j])
  }

  /** The second central moment Σ (values[j] − mn)²·p[j], the value put under the square root. */
  function Variance(values: seq<real>, p: seq<real>, mn: real): real
    requires |values| == |p|
  {
    Sum(SpreadTerms(values, p, mn))
  }

  /** All entries are non-negative. */
  ghost predicate NonNegative(p: seq<real>)
  {
    forall j :: 0 <= j < |p| ==> 0.0 <= p[j]
  }

  /** With non-negative beliefs the value put under the square root is never negative. */
  lemma VarianceNonNegative(values: seq<real>, p: seq<real>, mn: real)
    requires |values| == |p| && NonNegative(p)
    ensures 0.0 <= Variance(values, p, mn)
  {
    var s := SpreadTerms(values, p, mn);
    forall j | 0 <= j < |s|
      ensures 0.0 <= s[j]
    {
      var d := values[j] - mn;
      assert 0.0 <= d * d;
    }
    SumNonNegative(s);
  }

  /** A node with a single, certain state has mean equal to its value, and the value under the square root is 0. */
  lemma SingleStateVarianceZero(values: seq<real>, p: seq<real>)
    requires |values| == |p| == 1 && p[0] == 1.0
    ensures Mean(values, p) == values[0]
    ensures Variance(values, p, Mean(values, p)) == 0.0
  {
    var q := seq(|p|, j requires 0 <= j < |p| => values[j] * p[j]);
    assert q[..0] == [];
    assert Mean(values, p) == Sum(q[..0]) + q[0];
    var s := SpreadTerms(values, p, values[0]);
    assert s[..0] == [];
    assert Variance(values, p, values[0]) == Sum(s[..0]) + s[0];
  }

  /** The belief vector with its two moments, as `getPrior` and `getCondPrior` return it. */
  function Summarize(values: seq<real>, belief: seq<real>, sqrt: real -> real): (r: Prior)
    requires |values| == |belief|
    ensures r.belief == belief && |r.belief| == |values|
    ensures r.mean == Mean(values, belief)
    ensures r.std == sqrt(Variance(values, belief, r.mean))
    ensures NonNegative(belief) ==> 0.0 <= Variance(values, belief, r.mean)
  {
    var mn := Mean(values, belief);
    assert NonNegative(belief) ==> 0.0 <= Variance(values, belief, mn) by {
      if NonNegative(belief) {
        VarianceNonNegative(values, belief, mn);
      }
    }
    Prior(belief, mn, sqrt(Variance(values, belief, mn)))
  }

  /** `getPrior`: the moments of `node` with every finding retracted. */
  function GetPrior(net: Net, node: Node, sqrt: real -> real): (r: Prior)
    ensures r.belief == Beliefs(net, [], node)
    ensures r.mean == Mean(Values(net, node), r.belief)
    ensures r.std == sqrt(Variance(Values(net, node), r.belief, r.mean))
    ensures NonNegative(r.belief) ==> 0.0 <= Variance(Values(net, node), r.belief, r.mean)
  {
    Summarize(Values(net, node), Beliefs(net, [], node), sqrt)
  }

  /** The single by-name finding `condNode = condState` that conditions a sweep. */
  function Condition(condNode: Node, condState: string): Finding
  {
    Finding(condNode, ByName(condState))
  }

  /** `getCondPrior`: the moments of `node` given only the finding `condNode = condState` (by name). */
  function GetCondPrior(net: Net, node: Node, condNode: Node, condState: string, sqrt: real -> real): (r: Prior)
    ensures r.belief == Beliefs(net, [Condition(condNode, condState)], node)
    ensures r.mean == Mean(Values(net, node), r.belief)
    ensures r.std == sqrt(Variance(Values(net, node), r.belief, r.mean))
    ensures NonNegative(r.belief) ==> 0.0 <= Variance(Values(net, node), r.belief, r.mean)
  {
    Summarize(Values(net, node), Beliefs(net, [Condition(condNode, condState)], node), sqrt)
  }

  /** The outcome of a floating-point division: a number, or inf/nan when the divisor is 0. */
  datatype Quotient = Finite(value: real) | NonFinite

  /** `Correlation`: cov / (stdA · stdB). */
  function Correlation(priorA: Prior, priorB: Prior, cov: real): (r: Quotient)
    ensures r.Finite? <==> priorA.std * priorB.std != 0.0
    ensures r.Finite? ==> r.value * (priorA.std * priorB.std) == cov
  {
    var d := priorA.std * priorB.std;
    if d == 0.0 then NonFinite else Finite(cov / d)
  }

  /**
   Correlation does not depend on which node of the pair comes first: the
   step `SwappedPair` uses for the correlation of the swapped pair.
   */
  lemma CorrelationSymmetric(priorA: Prior, priorB: Prior, cov: real)
    ensures Correlation(priorA, priorB, cov) == Correlation(priorB, priorA, cov)
  {
  }

  /** Number of interior rows of a joint table. */
  function Rows(t: seq<seq<real>>): nat
  {
    if |t| == 0 then 0 else |t| - 1
  }

  /** Number of interior columns of a joint table. */
  function Cols(t: seq<seq<real>>): nat
  {
    if Width(t) == 0 then 0 else Width(t) - 1
  }

  /** The covariance term of interior cell [r+1, n+1], against the table's own header values. */
  function CellTerm(t: seq<seq<real>>, meanA: real, meanB: real, r: nat, n: nat): real
    requires Rectangular(t) && r < Rows(t) && n < Cols(t)
  {
    t[r + 1][n + 1] * (t[0][n + 1] - meanB) * (t[r + 1][0] - meanA)
  }

  /** The covariance terms of every interior cell, row by row. */
  function Terms(t: seq<seq<real>>, meanA: real, meanB: real): (m: seq<seq<real>>)
    requires Rectangular(t)
    ensures |m| == Rows(t) && HasWidth(m, Cols(t))
  {
    seq(Rows(t), r requires 0 <= r < Rows(t) =>
      seq(Cols(t), n requires 0 <= n < Cols(t) => CellTerm(t, meanA, meanB, r, n)))
  }

  /** Σ_r Σ_n t[r+1][n+1]·(t[0][n+1] − meanB)·(t[r+1][0] − meanA). */
  function CovarianceOf(t: seq<seq<real>>, meanA: real, meanB: real): real
    requires Rectangular(t)
  {
    Total(Terms(t, meanA, meanB))
  }

  /** The covariance term of an interior cell, read straight from the array. */
  lemma CellTermOfArray(jpd: array2<real>, meanA: real, meanB: real, r: nat, n: nat)
    requires r + 1 < jpd.Length0 && n + 1 < jpd.Length1
    ensures Rows(Grid(jpd)) == jpd.Length0 - 1 && Cols(Grid(jpd)) == jpd.Length1 - 1
    ensures Terms(Grid(jpd), meanA, meanB)[r][n]
         == jpd[r + 1, n + 1] * (jpd[0, n + 1] - meanB) * (jpd[r + 1, 0] - meanA)
  {
    var g := Grid(jpd);
    assert g[r + 1][n + 1] == jpd[r + 1, n + 1] && g[0][n + 1] == jpd[0, n + 1] && g[r + 1][0] == jpd[r + 1, 0];
  }

  /** The inner loop of `Covariance` over interior row `r`: adds that row's terms to `acc`. */
  method AddRowTerms(jpd: array2<real>, meanA: real, meanB: real, r: nat, acc: real) returns (cov: real)
    requires r + 1 < jpd.Length0
    ensures cov == acc + Sum(Terms(Grid(jpd), meanA, meanB)[r])
  {
    ghost var row := Terms(Grid(jpd), meanA, meanB)[r];
    var cols := if jpd.Length1 == 0 then 0 else jpd.Length1 - 1;
    assert |row| == cols;
    cov := acc;
    for n := 0 to cols
      invariant cov == acc + Sum(row[..n])
    {
      SumPrefix(row, n);
      CellTermOfArray(jpd, meanA, meanB, r, n);
      cov := cov + jpd[r + 1, n + 1] * (jpd[0, n + 1] - meanB) * (jpd[r + 1, 0] - meanA);
    }
    assert row[..cols] == row;
  }

  /**
   With a square root that maps 0 to 0, a node with one certain state has
   standard deviation 0, so its correlation with any node is inf/nan.
   */
  lemma CertainNodeCorrelation(values: seq<real>, p: seq<real>, sqrt: real -> real, other: Prior, cov: real)
    requires |values| == |p| == 1 && p[0] == 1.0 && sqrt(0.0) == 0.0
    ensures Summarize(values, p, sqrt).std == 0.0
    ensures Correlation(Summarize(values, p, sqrt), other, cov) == NonFinite
    ensures Correlation(other, Summarize(values, p, sqrt), cov) == NonFinite
  {
    SingleStateVarianceZero(values, p);
  }

  /** `Covariance`: the double loop over the interior of `jpd`, reading the axis values from its headers. */
  method Covariance(priorA: Prior, priorB: Prior, jpd: array2<real>) returns (cov: real)
    ensures cov == CovarianceOf(Grid(jpd), priorA.mean, priorB.mean)
  {
    ghost var sums := RowSums(Terms(Grid(jpd), priorA.mean, priorB.mean));
    var rows := if jpd.Length0 == 0 then 0 else jpd.Length0 - 1;
    assert rows == |sums|;
    cov := 0.0;
    for r := 0 to rows
      invariant cov == Sum(sums[..r])
    {
      cov := AddRowTerms(jpd, priorA.mean, priorB.mean, r, cov);
      SumPrefix(sums, r);
    }
    assert sums[..rows] == sums;
  }

  /**
   Two tables whose cells (r+1, n+1), (0, n+1) and (r+1, 0) are the cells
   (n+1, r+1), (n+1, 0) and (0, r+1) of the other have the same covariance
   term there, with the means swapped.
   */
  lemma CellTermSwap(t: seq<seq<real>>, t': seq<seq<real>>, meanA: real, meanB: real, r: nat, n: nat)
    requires Rectangular(t) && r < Rows(t) && n < Cols(t)
    requires Rectangular(t') && n < Rows(t') && r < Cols(t')
    requires t'[n + 1][r + 1] == t[r + 1][n + 1] && t'[0][r + 1] == t[r + 1][0] && t'[n + 1][0] == t[0][n + 1]
    ensures CellTerm(t', meanB, meanA, n, r) == CellTerm(t, meanA, meanB, r, n)
  {
    ProductSwap(t[r + 1][n + 1], t[0][n + 1] - meanB, t[r + 1][0] - meanA);
  }

  /** The order of the two deviations in a covariance term does not matter: the arithmetic step of `CellTermSwap`. */
  lemma ProductSwap(x: real, a: real, b: real)
    ensures x * a * b == x * b * a
  {
  }

  /**
   Swapping the roles of A and B transposes the interior and swaps the headers
   and the means; the covariance stays the same.
   */
  lemma CovarianceTranspose(headA: seq<real>, headB: seq<real>, interior: seq<seq<real>>, meanA: real, meanB: real)
    requires |interior| == |headA| && HasWidth(interior, |headB|)
    ensures CovarianceOf(Layout(headB, headA, Transpose(interior, |headB|)), meanB, meanA)
         == CovarianceOf(Layout(headA, headB, interior), meanA, meanB)
  {
    var flipped := Transpose(interior, |headB|);
    var t, t' := Layout(headA, headB, interior), Layout(headB, headA, flipped);
    var m, m' := Terms(t, meanA, meanB), Terms(t', meanB, meanA);
    assert Rows(t) == |headA| && Cols(t) == |headB|;
    assert Rows(t') == |headB| && Cols(t') == |headA|;
    var mt := Transpose(m, |headB|);
    forall n | 0 <= n < |headB|
      ensures m'[n] == mt[n]
    {
      forall r | 0 <= r < |headA|
        ensures m'[n][r] == mt[n][r]
      {
        LayoutCell(headA, headB, interior, r + 1, n + 1);
        LayoutCell(headA, headB, interior, 0, n + 1);
        LayoutCell(headA, headB, interior, r + 1, 0);
        LayoutCell(headB, headA, flipped, n + 1, r + 1);
        LayoutCell(headB, headA, flipped, 0, r + 1);
        LayoutCell(headB, headA, flipped, n + 1, 0);
        CellTermSwap(t, t', meanA, meanB, r, n);
      }
    }
    assert m' == mt;
    TotalTranspose(m, |headB|);
  }
}
