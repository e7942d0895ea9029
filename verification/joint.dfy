/**
 The two table builders. `JPD` reconstructs the joint distribution of a node
 pair (A, B) row by row: row n is P(A = n) times B's beliefs given the state of
 A named by A's title n. `CJPD` conditions every belief on `condNode = condState`
 and enters A's state by index, so row n is P(A = n | cond)·P(B | cond, A = n);
 it fills a row with zeros instead of querying the engine when A's conditional
 belief in that state is 0.
 */
module Joint {
  import opened Network
  import opened Sums
  import opened Tables
  import opened Moments

  /** The finding `JPD` enters for A's n-th state: A's state title, looked up by name. */
  function TitleFinding(net: Net, a: Node, n: nat): Finding
    requires n < NumStates(net, a)
  {
    Finding(a, ByName(net.titles(a)[n]))
  }

  /** The interior rows of the unconditioned table: row n is P(B | A = title n) scaled by P(A = n). */
  function JPDRows(net: Net, a: Node, b: Node): (rows: seq<seq<real>>)
    ensures |rows| == NumStates(net, a) && HasWidth(rows, NumStates(net, b))
  {
    var prior := Beliefs(net, [], a);
    seq(NumStates(net, a), n requires 0 <= n < NumStates(net, a) =>
      Scale(Beliefs(net, [TitleFinding(net, a, n)], b), prior[n]))
  }

  /** The table `JPD` returns for the pair (a, b). */
  function JPDTable(net: Net, a: Node, b: Node): seq<seq<real>>
  {
    Layout(Values(net, a), Values(net, b), JPDRows(net, a, b))
  }

  /** `JPD`: fill a zero matrix with the headers, then one row per state of A. */
  method JPD(net: Net, sqrt: real -> real, nodeTuple: (Node, Node)) returns (output: array2<real>)
    ensures fresh(output)
    ensures Grid(output) == JPDTable(net, nodeTuple.0, nodeTuple.1)
  {
    var (a, b) := nodeTuple;
    var priorA := GetPrior(net, a, sqrt);
    var statesA, statesB := net.titles(a), net.titles(b);
    var numstatesA, numstatesB := Values(net, a), Values(net, b);
    output := new real[|statesA| + 1, |statesB| + 1]((_, _) => 0.0);
    SetRow(output, 0, numstatesB);
    SetColumn(output, numstatesA);
    ghost var rows := JPDRows(net, a, b);
    for n := 0 to |statesA|
      invariant output[0, 0] == 0.0
      invariant forall j :: 0 <= j < |statesB| ==> output[0, j + 1] == numstatesB[j]
      invariant forall i :: 0 <= i < |statesA| ==> output[i + 1, 0] == numstatesA[i]
      invariant forall i, j :: 0 <= i < n && 0 <= j < |statesB| ==> output[i + 1, j + 1] == rows[i][j]
    {
      var posterior := Beliefs(net, [Finding(a, ByName(statesA[n]))], b);
      SetRow(output, n + 1, Scale(posterior, priorA.belief[n]));
    }
    GridIsLayout(output, numstatesA, numstatesB, rows);
  }

  /**
   The findings `CJPD` enters for A's n-th state: the condition by name, then
   A's state by its index.
   */
  function JointFindings(condNode: Node, condState: string, a: Node, n: nat): seq<Finding>
  {
    [Condition(condNode, condState), Finding(a, ByRank(n))]
  }

  /**
   The interior rows of the conditional table: row n is zero when
   P(A = n | cond) is 0, and P(B | cond, A = n) scaled by P(A = n | cond) otherwise.
   */
  function CJPDRows(net: Net, a: Node, b: Node, condNode: Node, condState: string): (rows: seq<seq<real>>)
    ensures |rows| == NumStates(net, a) && HasWidth(rows, NumStates(net, b))
  {
    var prior := Beliefs(net, [Condition(condNode, condState)], a);
    seq(NumStates(net, a), n requires 0 <= n < NumStates(net, a) =>
      if prior[n] == 0.0 then Zeros(NumStates(net, b))
      else Scale(Beliefs(net, JointFindings(condNode, condState, a, n), b), prior[n]))
  }

  /** The table `CJPD` returns for the pair (a, b) under `condNode = condState`. */
  function CJPDTable(net: Net, a: Node, b: Node, condNode: Node, condState: string): seq<seq<real>>
  {
    Layout(Values(net, a), Values(net, b), CJPDRows(net, a, b, condNode, condState))
  }

  /** `cJPD`: as `JPD`, conditioned on `condNode = condState`, with zero rows for impossible states of A. */
  method CJPD(net: Net, sqrt: real -> real, nodeTuple: (Node, Node), condNode: Node, condState: string)
    returns (output: array2<real>)
    ensures fresh(output)
    ensures Grid(output) == CJPDTable(net, nodeTuple.0, nodeTuple.1, condNode, condState)
  {
    var (a, b) := nodeTuple;
    var priorA := GetCondPrior(net, a, condNode, condState, sqrt);
    var statesA, statesB := net.titles(a), net.titles(b);
    var numstatesA, numstatesB := Values(net, a), Values(net, b);
    output := new real[|statesA| + 1, |statesB| + 1]((_, _) => 0.0);
    SetRow(output, 0, numstatesB);
    SetColumn(output, numstatesA);
    ghost var rows := CJPDRows(net, a, b, condNode, condState);
    for n := 0 to |statesA|
      invariant output[0, 0] == 0.0
      invariant forall j :: 0 <= j < |statesB| ==> output[0, j + 1] == numstatesB[j]
      invariant forall i :: 0 <= i < |statesA| ==> output[i + 1, 0] == numstatesA[i]
      invariant forall i, j :: 0 <= i < n && 0 <= j < |statesB| ==> output[i + 1, j + 1] == rows[i][j]
    {
      if priorA.belief[n] == 0.0 {
        SetRow(output, n + 1, Zeros(|statesB|));
      } else {
        var posterior := Beliefs(net, [Condition(condNode, condState), Finding(a, ByRank(n))], b);
        SetRow(output, n + 1, Scale(posterior, priorA.belief[n]));
      }
    }
    GridIsLayout(output, numstatesA, numstatesB, rows);
  }

  /**
   When every posterior P(B | A = n) sums to 1, the interior of the
   unconditioned table sums to the total prior mass of A.
   */
  lemma JPDInteriorTotal(net: Net, a: Node, b: Node)
    requires forall n :: 0 <= n < NumStates(net, a) ==> Sum(Beliefs(net, [TitleFinding(net, a, n)], b)) == 1.0
    ensures Total(JPDRows(net, a, b)) == Sum(Beliefs(net, [], a))
  {
    var rows, prior := JPDRows(net, a, b), Beliefs(net, [], a);
    forall n | 0 <= n < |rows|
      ensures RowSums(rows)[n] == prior[n]
    {
      SumScale(Beliefs(net, [TitleFinding(net, a, n)], b), prior[n]);
    }
    SumEqual(RowSums(rows), prior);
  }

  /** A state of A with conditional belief 0 gets a row of zeros, which adds exactly 0 to the table. */
  lemma CJPDDegenerateRow(net: Net, a: Node, b: Node, condNode: Node, condState: string, n: nat)
    requires n < NumStates(net, a)
    requires Beliefs(net, [Condition(condNode, condState)], a)[n] == 0.0
    ensures CJPDRows(net, a, b, condNode, condState)[n] == Zeros(NumStates(net, b))
    ensures RowSums(CJPDRows(net, a, b, condNode, condState))[n] == 0.0
  {
    SumZeros(NumStates(net, b));
  }

  /**
   When every posterior that is queried sums to 1, the interior of the
   conditional table sums to the total conditional mass of A; zero rows
   contribute nothing.
   */
  lemma CJPDInteriorTotal(net: Net, a: Node, b: Node, condNode: Node, condState: string)
    requires forall n :: 0 <= n < NumStates(net, a) && Beliefs(net, [Condition(condNode, condState)], a)[n] != 0.0 ==>
      Sum(Beliefs(net, JointFindings(condNode, condState, a, n), b)) == 1.0
    ensures Total(CJPDRows(net, a, b, condNode, condState)) == Sum(Beliefs(net, [Condition(condNode, condState)], a))
  {
    var rows, prior := CJPDRows(net, a, b, condNode, condState), Beliefs(net, [Condition(condNode, condState)], a);
    forall n | 0 <= n < |rows|
      ensures RowSums(rows)[n] == prior[n]
    {
      if prior[n] == 0.0 {
        CJPDDegenerateRow(net, a, b, condNode, condState, n);
      } else {
        SumScale(Beliefs(net, JointFindings(condNode, condState, a, n), b), prior[n]);
      }
    }
    SumEqual(RowSums(rows), prior);
  }

  /** `fs` is the joint query of a state of A whose conditional belief is 0: one `CJPD` skips. */
  predicate Skipped(net: Net, a: Node, condNode: Node, condState: string, fs: seq<Finding>)
  {
    |fs| == 2 && fs[1].node == a && fs[1].state.ByRank? && fs[1].state.rank < NumStates(net, a)
    && fs == JointFindings(condNode, condState, a, fs[1].state.rank)
    && Beliefs(net, [Condition(condNode, condState)], a)[fs[1].state.rank] == 0.0
  }

  /**
   The conditional table never depends on what the engine would answer for a
   skipped joint query: an engine that differs from `net`'s only on those
   queries yields the same table.
   */
  lemma CJPDSkipsDegenerateQueries(net: Net, other: (seq<Finding>, Node, nat) -> real,
                                   a: Node, b: Node, condNode: Node, condState: string)
    requires forall fs, node, j :: other(fs, node, j) != net.belief(fs, node, j) ==> Skipped(net, a, condNode, condState, fs)
    ensures CJPDTable(net.(belief := other), a, b, condNode, condState) == CJPDTable(net, a, b, condNode, condState)
  {
    var net' := net.(belief := other);
    var cond := [Condition(condNode, condState)];
    assert Beliefs(net', cond, a) == Beliefs(net, cond, a) by {
      forall j | 0 <= j < NumStates(net, a)
        ensures other(cond, a, j) == net.belief(cond, a, j)
      {
        assert !Skipped(net, a, condNode, condState, cond);
      }
    }
    var rows, rows' := CJPDRows(net, a, b, condNode, condState), CJPDRows(net', a, b, condNode, condState);
    forall n | 0 <= n < NumStates(net, a)
      ensures rows'[n] == rows[n]
    {
      if Beliefs(net, cond, a)[n] != 0.0 {
        var fs := JointFindings(condNode, condState, a, n);
        assert Beliefs(net', fs, b) == Beliefs(net, fs, b) by {
          forall j | 0 <= j < NumStates(net, b)
            ensures other(fs, b, j) == net.belief(fs, b, j)
          {
            assert !Skipped(net, a, condNode, condState, fs);
          }
        }
      }
    }
    assert rows' == rows;
  }

  /**
   The engine answers the title findings `JPD` enters consistently with the
   chain rule for A and B: P(A = n) times B's belief in m given the state of A
   named by A's title n equals P(B = m) times A's belief in n given the state of
   B named by B's title m. This is the chain rule proper only when each title
   names the state at its own position.
   */
  ghost predicate ChainRule(net: Net, a: Node, b: Node)
  {
    forall n, m :: 0 <= n < NumStates(net, a) && 0 <= m < NumStates(net, b) ==>
      Beliefs(net, [], a)[n] * Beliefs(net, [TitleFinding(net, a, n)], b)[m]
      == Beliefs(net, [], b)[m] * Beliefs(net, [TitleFinding(net, b, m)], a)[n]
  }

  /**
   For an engine that obeys the chain rule, the table of (B, A) is the table of
   (A, B) with headers swapped and interior transposed, and both pairs have the
   same covariance and correlation.
   */
  lemma SwappedPair(net: Net, sqrt: real -> real, a: Node, b: Node)
    requires ChainRule(net, a, b)
    ensures JPDTable(net, b, a) == Layout(Values(net, b), Values(net, a), Transpose(JPDRows(net, a, b), NumStates(net, b)))
    ensures CovarianceOf(JPDTable(net, b, a), GetPrior(net, b, sqrt).mean, GetPrior(net, a, sqrt).mean)
         == CovarianceOf(JPDTable(net, a, b), GetPrior(net, a, sqrt).mean, GetPrior(net, b, sqrt).mean)
    ensures var cov := CovarianceOf(JPDTable(net, a, b), GetPrior(net, a, sqrt).mean, GetPrior(net, b, sqrt).mean);
      Correlation(GetPrior(net, b, sqrt), GetPrior(net, a, sqrt), cov)
      == Correlation(GetPrior(net, a, sqrt), GetPrior(net, b, sqrt), cov)
  {
    var rows, rows' := JPDRows(net, a, b), JPDRows(net, b, a);
    var flipped := Transpose(rows, NumStates(net, b));
    forall m | 0 <= m < NumStates(net, b)
      ensures rows'[m] == flipped[m]
    {
      forall n | 0 <= n < NumStates(net, a)
        ensures rows'[m][n] == flipped[m][n]
      {
        assert rows'[m][n] == Beliefs(net, [TitleFinding(net, b, m)], a)[n] * Beliefs(net, [], b)[m];
        assert rows[n][m] == Beliefs(net, [TitleFinding(net, a, n)], b)[m] * Beliefs(net, [], a)[n];
      }
    }
    assert rows' == flipped;
    CovarianceTranspose(Values(net, a), Values(net, b), rows, GetPrior(net, a, sqrt).mean, GetPrior(net, b, sqrt).mean);
    CorrelationSymmetric(GetPrior(net, a, sqrt), GetPrior(net, b, sqrt),
      CovarianceOf(JPDTable(net, a, b), GetPrior(net, a, sqrt).mean, GetPrior(net, b, sqrt).mean));
  }
}
