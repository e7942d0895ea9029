/**
 The labelled joint table: an (n+1)×(m+1) matrix whose row 0 holds B's numeric
 state titles, whose column 0 holds A's, whose corner is 0, and whose interior
 holds the joint beliefs. The builders fill a numpy-like `array2<real>`; its
 contents are compared with the sequence-of-rows value `Layout` describes.
 */
module Tables {
  import opened Sums

  /** Number of cells in the first row of `t` (0 for an empty table). */
  function Width(t: seq<seq<real>>): nat
  {
    if |t| == 0 then 0 else |t[0]|
  }

  /** Every row of `t` is as wide as the first one, as in a numpy matrix. */
  ghost predicate Rectangular(t: seq<seq<real>>)
  {
    HasWidth(t, Width(t))
  }

  /** The contents of a 2-D array, row by row. */
  function Grid(a: array2<real>): (g: seq<seq<real>>)
    reads a
    ensures |g| == a.Length0 && HasWidth(g, a.Length1) && Rectangular(g)
    ensures forall i, j :: 0 <= i < a.Length0 && 0 <= j < a.Length1 ==> g[i][j] == a[i, j]
  {
    seq(a.Length0, i requires 0 <= i < a.Length0 reads a =>
      seq(a.Length1, j requires 0 <= j < a.Length1 reads a => a[i, j]))
  }

  /**
   The table with A's numeric titles `headA` down column 0, B's numeric titles
   `headB` along row 0, 0 in the corner and `interior[i][j]` at [i+1, j+1].
   */
  function Layout(headA: seq<real>, headB: seq<real>, interior: seq<seq<real>>): (t: seq<seq<real>>)
    requires |interior| == |headA| && HasWidth(interior, |headB|)
    ensures |t| == |headA| + 1 && HasWidth(t, |headB| + 1) && Rectangular(t)
  {
    [[0.0] + headB] + seq(|headA|, i requires 0 <= i < |headA| => [headA[i]] + interior[i])
  }

  /** Cell (r, n) of the layout: the corner, a header of B, a header of A, or an interior cell. */
  lemma LayoutCell(headA: seq<real>, headB: seq<real>, interior: seq<seq<real>>, r: nat, n: nat)
    requires |interior| == |headA| && HasWidth(interior, |headB|)
    requires r <= |headA| && n <= |headB|
    ensures Layout(headA, headB, interior)[r][n]
         == if r == 0 && n == 0 then 0.0
            else if r == 0 then headB[n - 1]
            else if n == 0 then headA[r - 1]
            else interior[r - 1][n - 1]
  {
  }

  /** An array that holds the layout cell by cell holds it as a whole. */
  lemma GridIsLayout(a: array2<real>, headA: seq<real>, headB: seq<real>, interior: seq<seq<real>>)
    requires |interior| == |headA| && HasWidth(interior, |headB|)
    requires a.Length0 == |headA| + 1 && a.Length1 == |headB| + 1
    requires a[0, 0] == 0.0
    requires forall j :: 0 <= j < |headB| ==> a[0, j + 1] == headB[j]
    requires forall i :: 0 <= i < |headA| ==> a[i + 1, 0] == headA[i]
    requires forall i, j :: 0 <= i < |headA| && 0 <= j < |headB| ==> a[i + 1, j + 1] == interior[i][j]
    ensures Grid(a) == Layout(headA, headB, interior)
  {
    var g, t := Grid(a), Layout(headA, headB, interior);
    forall i | 0 <= i < |t|
      ensures g[i] == t[i]
    {
      forall j | 0 <= j < |t[i]|
        ensures g[i][j] == t[i][j]
      {
        if i == 0 && j == 0 {
        } else if i == 0 {
          assert t[0][(j - 1) + 1] == headB[j - 1];
        } else if j == 0 {
          assert t[(i - 1) + 1][0] == headA[i - 1];
        } else {
          assert t[(i - 1) + 1][(j - 1) + 1] == interior[i - 1][j - 1];
        }
      }
    }
  }

  /** `a[r][1:] = xs`: overwrite row `r` from column 1 on, leaving every other cell alone. */
  method SetRow(a: array2<real>, r: nat, xs: seq<real>)
    requires r < a.Length0 && |xs| + 1 == a.Length1
    modifies a
    ensures forall i, j :: 0 <= i < a.Length0 && 0 <= j < a.Length1 ==>
      a[i, j] == if i == r && 1 <= j then xs[j - 1] else old(a[i, j])
  {
    for j := 0 to |xs|
      invariant forall i, k :: 0 <= i < a.Length0 && 0 <= k < a.Length1 ==>
        a[i, k] == if i == r && 1 <= k <= j then xs[k - 1] else old(a[i, k])
    {
      a[r, j + 1] := xs[j];
    }
  }

  /** `a[1:, 0] = xs`: overwrite column 0 from row 1 on, leaving every other cell alone. */
  method SetColumn(a: array2<real>, xs: seq<real>)
    requires |xs| + 1 == a.Length0 && 0 < a.Length1
    modifies a
    ensures forall i, j :: 0 <= i < a.Length0 && 0 <= j < a.Length1 ==>
      a[i, j] == if 1 <= i && j == 0 then xs[i - 1] else old(a[i, j])
  {
    for i := 0 to |xs|
      invariant forall k, j :: 0 <= k < a.Length0 && 0 <= j < a.Length1 ==>
        a[k, j] == if 1 <= k <= i && j == 0 then xs[k - 1] else old(a[k, j])
    {
      a[i + 1, 0] := xs[i];
    }
  }
}
