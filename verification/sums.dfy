/**
 Finite sums of reals, the element-wise scaling of a vector, and double sums
 over a rectangular block of cells.
 */
module Sums {

  /** The sum of a sequence, added left to right as Python's `sum` does. */
  function Sum(s: seq<real>): real
  {
    if |s| == 0 then 0.0 else Sum(s[..|s| - 1]) + s[|s| - 1]
  }

  /** Extending a prefix by one element adds that element to the sum. */
  lemma SumPrefix(s: seq<real>, k: nat)
    requires k < |s|
    ensures Sum(s[..k + 1]) == Sum(s[..k]) + s[k]
  {
    assert s[..k + 1][..k] == s[..k];
  }

  /** The vector `p` multiplied element-wise by the scalar `c` (numpy's `array * c`). */
  function Scale(p: seq<real>, c: real): (r: seq<real>)
    ensures |r| == |p|
  {
    seq(|p|, j requires 0 <= j < |p| => p[j] * c)
  }

  /** `m` zeros (numpy's `array([0.0] * m)`). */
  function Zeros(m: nat): (r: seq<real>)
    ensures |r| == m
  {
    seq(m, _ => 0.0)
  }

  /** Scaling a vector scales its sum. */
  lemma {:induction false} SumScale(p: seq<real>, c: real)
    ensures Sum(Scale(p, c)) == Sum(p) * c
  {
    if |p| > 0 {
      var q := p[..|p| - 1];
      assert forall j :: 0 <= j < |q| ==> Scale(p, c)[..|p| - 1][j] == Scale(q, c)[j];
      assert Scale(p, c)[..|p| - 1] == Scale(q, c);
      SumScale(q, c);
    }
  }

  /** A row of zeros sums to exactly zero. */
  lemma {:induction false} SumZeros(m: nat)
    ensures Sum(Zeros(m)) == 0.0
  {
    if m > 0 {
      assert Zeros(m)[..m - 1] == Zeros(m - 1);
      SumZeros(m - 1);
    }
  }

  /** A sum of non-negative terms is non-negative. */
  lemma {:induction false} SumNonNegative(s: seq<real>)
    requires forall j :: 0 <= j < |s| ==> 0.0 <= s[j]
    ensures 0.0 <= Sum(s)
  {
    if |s| > 0 {
      SumNonNegative(s[..|s| - 1]);
    }
  }

  /** The sum of an element-wise sum is the sum of the sums. */
  lemma {:induction false} SumPointwise(x: seq<real>, y: seq<real>, z: seq<real>)
    requires |x| == |y| == |z|
    requires forall j :: 0 <= j < |z| ==> z[j] == x[j] + y[j]
    ensures Sum(z) == Sum(x) + Sum(y)
  {
    if |z| > 0 {
      var n := |z| - 1;
      SumPointwise(x[..n], y[..n], z[..n]);
    }
  }

  /** Two sequences that agree element-wise have the same sum. */
  lemma SumEqual(x: seq<real>, y: seq<real>)
    requires |x| == |y|
    requires forall j :: 0 <= j < |x| ==> x[j] == y[j]
    ensures Sum(x) == Sum(y)
  {
  }

  /** Every row of `m` has `width` cells. */
  ghost predicate HasWidth(m: seq<seq<real>>, width: nat)
  {
    forall r :: 0 <= r < |m| ==> |m[r]| == width
  }

  /** The sum of each row. */
  function RowSums(m: seq<seq<real>>): (r: seq<real>)
    ensures |r| == |m|
  {
    seq(|m|, i requires 0 <= i < |m| => Sum(m[i]))
  }

  /** The sum of every cell, row by row. */
  function Total(m: seq<seq<real>>): real
  {
    Sum(RowSums(m))
  }

  /** Column `n` of a block whose rows all have more than `n` cells. */
  function Column(m: seq<seq<real>>, n: nat): (c: seq<real>)
    requires forall r :: 0 <= r < |m| ==> n < |m[r]|
    ensures |c| == |m|
  {
    seq(|m|, r requires 0 <= r < |m| => m[r][n])
  }

  /** The transpose of a block of `width` columns. */
  function Transpose(m: seq<seq<real>>, width: nat): (t: seq<seq<real>>)
    requires HasWidth(m, width)
    ensures |t| == width && HasWidth(t, |m|)
    ensures forall n, r :: 0 <= n < width && 0 <= r < |m| ==> t[n][r] == m[r][n]
  {
    seq(width, n requires 0 <= n < width => Column(m, n))
  }

  /** Adding a last row adds its sum to the total. */
  lemma TotalSnoc(m: seq<seq<real>>, row: seq<real>)
    ensures Total(m + [row]) == Total(m) + Sum(row)
  {
    assert RowSums(m + [row])[..|m|] == RowSums(m);
  }

  /** A double sum may be taken column by column instead of row by row. */
  lemma {:induction false} TotalTranspose(m: seq<seq<real>>, width: nat)
    requires HasWidth(m, width)
    ensures Total(Transpose(m, width)) == Total(m)
  {
    if |m| == 0 {
      var t := Transpose(m, width);
      assert forall n :: 0 <= n < width ==> t[n] == [];
      SumEqual(RowSums(t), Zeros(width));
      SumZeros(width);
    } else {
      var k := |m| - 1;
      var front, last := m[..k], m[k];
      assert m == front + [last];
      var t, t' := Transpose(m, width), Transpose(front, width);
      TotalTranspose(front, width);
      TotalSnoc(front, last);
      forall n | 0 <= n < width
        ensures RowSums(t)[n] == RowSums(t')[n] + last[n]
      {
        assert t[n] == t'[n] + [last[n]];
        assert t[n][..k] == t'[n];
      }
      SumPointwise(RowSums(t'), last, RowSums(t));
    }
  }
}
