/**
 The batch orchestrators: one result record per unordered pair of output
 nodes, for the unconditioned tables (`allJPDs`) and for each state of a
 conditioning node in turn (`allcJPDs`).
 */
module Batch {
  import opened Network
  import opened Sums
  import opened Tables
  import opened Moments
  import opened Pairs
  import opened Joint

  /** One record `[A, B, jpd, cov, cor]`; `jpd` holds the contents of the labelled table. */
  datatype PairResult = PairResult(a: Node, b: Node, jpd: seq<seq<real>>, cov: real, cor: Quotient)

  /** The record `allJPDs` builds for the pair `c`. */
  function JointRecord(net: Net, sqrt: real -> real, c: (Node, Node)): PairResult
  {
    var priorA, priorB := GetPrior(net, c.0, sqrt), GetPrior(net, c.1, sqrt);
    var jpd := JPDTable(net, c.0, c.1);
    var cov := CovarianceOf(jpd, priorA.mean, priorB.mean);
    PairResult(c.0, c.1, jpd, cov, Correlation(priorA, priorB, cov))
  }

  /** `f` applied to every element of `xs`, in order. */
  function Map<A, B>(f: A -> B, xs: seq<A>): (r: seq<B>)
    ensures |r| == |xs| && forall k :: 0 <= k < |xs| ==> r[k] == f(xs[k])
  {
    seq(|xs|, k requires 0 <= k < |xs| => f(xs[k]))
  }

  /** Extending the elements by one extends the images by that element's image. */
  lemma MapSnoc<A, B>(f: A -> B, xs: seq<A>, k: nat)
    requires k < |xs|
    ensures Map(f, xs[..k + 1]) == Map(f, xs[..k]) + [f(xs[k])]
  {
    var x, y := Map(f, xs[..k + 1]), Map(f, xs[..k]) + [f(xs[k])];
    forall q | 0 <= q < k + 1
      ensures x[q] == y[q]
    {
      assert xs[..k + 1][q] == xs[q];
    }
  }

  /** The records `allJPDs` builds for `pairs`, in order. */
  function JointRecords(net: Net, sqrt: real -> real, pairs: seq<(Node, Node)>): (r: seq<PairResult>)
    ensures |r| == |pairs|
  {
    Map(c => JointRecord(net, sqrt, c), pairs)
  }

  /** Extending the pairs by one extends the records by that pair's record. */
  lemma JointRecordsSnoc(net: Net, sqrt: real -> real, pairs: seq<(Node, Node)>, k: nat)
    requires k < |pairs|
    ensures JointRecords(net, sqrt, pairs[..k + 1]) == JointRecords(net, sqrt, pairs[..k]) + [JointRecord(net, sqrt, pairs[k])]
  {
    MapSnoc(c => JointRecord(net, sqrt, c), pairs, k);
  }

  /**
   For an engine obeying `ChainRule`, the records of (a, b) and (b, a) agree on
   covariance and correlation, and the table of (b, a) is that of (a, b) with
   the headers swapped and the interior transposed.
   */
  lemma SwappedRecord(net: Net, sqrt: real -> real, a: Node, b: Node)
    requires ChainRule(net, a, b)
    ensures JointRecord(net, sqrt, (b, a)).jpd
         == Layout(Values(net, b), Values(net, a), Transpose(JPDRows(net, a, b), NumStates(net, b)))
    ensures JointRecord(net, sqrt, (b, a)).cov == JointRecord(net, sqrt, (a, b)).cov
    ensures JointRecord(net, sqrt, (b, a)).cor == JointRecord(net, sqrt, (a, b)).cor
  {
    SwappedPair(net, sqrt, a, b);
  }

  /** The body of the `allJPDs` loop for the pair `c`: its table, covariance and correlation. */
  method JointPair(net: Net, sqrt: real -> real, c: (Node, Node)) returns (rec: PairResult)
    ensures rec == JointRecord(net, sqrt, c)
  {
    var priorA := GetPrior(net, c.0, sqrt);
    var priorB := GetPrior(net, c.1, sqrt);
    var jpd := JPD(net, sqrt, c);
    var cov := Covariance(priorA, priorB, jpd);
    var cor := Correlation(priorA, priorB, cov);
    rec := PairResult(c.0, c.1, Grid(jpd), cov, cor);
  }

  /** `allJPDs`: a record for every pair of output nodes, in `itertools.combinations` order. */
  method AllJPDs(net: Net, sqrt: real -> real) returns (data: seq<PairResult>)
    ensures 2 * |data| == |net.outputs| * (|net.outputs| - 1)
    ensures |data| == |Combinations(net.outputs)|
    ensures data == JointRecords(net, sqrt, Combinations(net.outputs))
  {
    var onodes := net.outputs;
    var combinations := Combinations(onodes);
    IndexPairsCount(0, |onodes|);
    data := [];
    for k := 0 to |combinations|
      invariant data == JointRecords(net, sqrt, combinations[..k])
    {
      var rec := JointPair(net, sqrt, combinations[k]);
      JointRecordsSnoc(net, sqrt, combinations, k);
      data := data + [rec];
    }
    assert combinations[..|combinations|] == combinations;
  }

  /** The record `allcJPDs` builds for the pair `c` under `condNode = condState`. */
  function CondRecord(net: Net, sqrt: real -> real, condNode: Node, condState: string, c: (Node, Node)): PairResult
  {
    var priorA := GetCondPrior(net, c.0, condNode, condState, sqrt);
    var priorB := GetCondPrior(net, c.1, condNode, condState, sqrt);
    var jpd := CJPDTable(net, c.0, c.1, condNode, condState);
    var cov := CovarianceOf(jpd, priorA.mean, priorB.mean);
    PairResult(c.0, c.1, jpd, cov, Correlation(priorA, priorB, cov))
  }

  /**
   ⌊x / d⌋ for natural numbers, by repeated subtraction. It equals `x / d`; it is
   written recursively only so that no division appears in the verification
   conditions of the loops of `allcJPDs`, where it made the proofs slow.
   */
  function FloorDiv(x: nat, d: nat): nat
    requires 0 < d
    decreases x
  {
    if x < d then 0 else 1 + FloorDiv(x - d, d)
  }

  /** `FloorDiv` is the quotient of Euclidean division: q·d ≤ x < (q+1)·d. */
  lemma {:induction false} FloorDivBounds(x: nat, d: nat)
    requires 0 < d
    ensures FloorDiv(x, d) * d <= x < (FloorDiv(x, d) + 1) * d
    decreases x
  {
    if d <= x {
      FloorDivBounds(x - d, d);
      var q := FloorDiv(x - d, d);
      assert (q + 1) * d == q * d + d && (q + 2) * d == (q + 1) * d + d;
    }
  }

  /** A quotient of something below b·d is below b. */
  lemma {:induction false} FloorDivBelow(x: nat, d: nat, b: nat)
    requires 0 < d && x < b * d
    ensures FloorDiv(x, d) < b
    decreases x
  {
    if d <= x {
      assert b * d == (b - 1) * d + d;
      FloorDivBelow(x - d, d, b - 1);
    }
  }

  /** The progress figure printed before a pair: `int(100 * progress / total)`. */
  function Percent(progress: nat, total: nat): (r: nat)
    requires progress < total
    ensures r < 100
  {
    FloorDivBelow(100 * progress, total, 100);
    FloorDiv(100 * progress, total)
  }

  /** The figure is `100 · progress / total` rounded down. */
  lemma PercentRoundsDown(progress: nat, total: nat)
    requires progress < total
    ensures Percent(progress, total) * total <= 100 * progress < (Percent(progress, total) + 1) * total
  {
    FloorDivBounds(100 * progress, total);
  }

  /** The figures printed for pairs `from`, …, `from + count − 1` of a sweep over `total` pairs. */
  function Reports(from: nat, count: nat, total: nat): (r: seq<nat>)
    requires from + count <= total
    ensures |r| == count
  {
    seq<nat>(count, k requires 0 <= k < count => Percent(from + k, total))
  }

  /** Reporting `a` pairs and then `b` more is reporting `a + b` pairs. */
  lemma ReportsAppend(from: nat, a: nat, b: nat, total: nat)
    requires from + a + b <= total
    ensures Reports(from, a, total) + Reports(from + a, b, total) == Reports(from, a + b, total)
  {
  }

  /** One more pair adds its figure at the end. */
  lemma ReportsSnoc(from: nat, count: nat, total: nat)
    requires from + count < total
    ensures Reports(from, count + 1, total) == Reports(from, count, total) + [Percent(from + count, total)]
  {
    var x, y := Reports(from, count + 1, total), Reports(from, count, total) + [Percent(from + count, total)];
    forall k | 0 <= k < count + 1
      ensures x[k] == y[k]
    {
    }
  }

  /**
   The number of pairs `allcJPDs` has handled before the conditioning state with
   index `s`: `n · s` (`PairsBeforeProduct`), written as a sum so that the loop
   invariant of `CondSweep` has no multiplication of two variables.
   */
  function PairsBefore(s: nat, n: nat): nat
  {
    if s == 0 then 0 else PairsBefore(s - 1, n) + n
  }

  /** After `s` states the count is `n · s`. */
  lemma {:induction false} PairsBeforeProduct(s: nat, n: nat)
    ensures PairsBefore(s, n) == n * s
  {
    if s != 0 {
      PairsBeforeProduct(s - 1, n);
      assert n * (s - 1) + n == n * s;
    }
  }

  /** The count only grows from one state to the next. */
  lemma {:induction false} PairsBeforeMonotone(s: nat, t: nat, n: nat)
    requires s <= t
    ensures PairsBefore(s, n) <= PairsBefore(t, n)
    decreases t
  {
    if s < t {
      PairsBeforeMonotone(s, t - 1, n);
    }
  }

  /** The records `allcJPDs` builds for `pairs` under `condNode = condState`, in order. */
  function CondRecords(net: Net, sqrt: real -> real, condNode: Node, condState: string, pairs: seq<(Node, Node)>): (r: seq<PairResult>)
    ensures |r| == |pairs|
  {
    Map(c => CondRecord(net, sqrt, condNode, condState, c), pairs)
  }

  /** Extending the pairs by one extends the records by that pair's record. */
  lemma CondRecordsSnoc(net: Net, sqrt: real -> real, condNode: Node, condState: string, pairs: seq<(Node, Node)>, k: nat)
    requires k < |pairs|
    ensures CondRecords(net, sqrt, condNode, condState, pairs[..k + 1])
         == CondRecords(net, sqrt, condNode, condState, pairs[..k]) + [CondRecord(net, sqrt, condNode, condState, pairs[k])]
  {
    MapSnoc(c => CondRecord(net, sqrt, condNode, condState, c), pairs, k);
  }

  /** The body of the `allcJPDs` inner loop for the pair `c` under `condNode = cs`. */
  method CondPair(net: Net, sqrt: real -> real, condNode: Node, cs: string, c: (Node, Node)) returns (rec: PairResult)
    ensures rec == CondRecord(net, sqrt, condNode, cs, c)
  {
    var priorA := GetCondPrior(net, c.0, condNode, cs, sqrt);
    var priorB := GetCondPrior(net, c.1, condNode, cs, sqrt);
    var jpd := CJPD(net, sqrt, c, condNode, cs);
    var cov := Covariance(priorA, priorB, jpd);
    var cor := Correlation(priorA, priorB, cov);
    rec := PairResult(c.0, c.1, Grid(jpd), cov, cor);
  }

  /**
   One pass of the inner loop of `allcJPDs`, for the `k`-th pair: print the
   figure for `progress + k`, then append the pair's record.
   */
  method CondStep(net: Net, sqrt: real -> real, condNode: Node, cs: string, combinations: seq<(Node, Node)>,
                  progress: nat, total: nat, k: nat, data: seq<PairResult>, reported: seq<nat>)
    returns (data': seq<PairResult>, reported': seq<nat>)
    requires progress + |combinations| <= total && k < |combinations|
    requires data == CondRecords(net, sqrt, condNode, cs, combinations[..k])
    requires reported == Reports(progress, k, total)
    ensures data' == CondRecords(net, sqrt, condNode, cs, combinations[..k + 1])
    ensures reported' == Reports(progress, k + 1, total)
  {
    ReportsSnoc(progress, k, total);
    reported' := reported + [Percent(progress + k, total)];
    var rec := CondPair(net, sqrt, condNode, cs, combinations[k]);
    CondRecordsSnoc(net, sqrt, condNode, cs, combinations, k);
    data' := data + [rec];
  }

  /**
   The inner loop of `allcJPDs` for one conditioning state `cs`: a record for
   each pair of `combinations`, reporting `progress` before each pair and
   advancing it by one after.
   */
  method CondResultSet(net: Net, sqrt: real -> real, condNode: Node, cs: string,
                       combinations: seq<(Node, Node)>, progress: nat, total: nat)
    returns (data: seq<PairResult>, reported: seq<nat>)
    requires progress + |combinations| <= total
    ensures data == CondRecords(net, sqrt, condNode, cs, combinations)
    ensures reported == Reports(progress, |combinations|, total)
  {
    data := [];
    reported := [];
    for k := 0 to |combinations|
      invariant reported == Reports(progress, k, total)
      invariant data == CondRecords(net, sqrt, condNode, cs, combinations[..k])
    {
      data, reported := CondStep(net, sqrt, condNode, cs, combinations, progress, total, k, data, reported);
    }
    assert combinations[..|combinations|] == combinations;
  }

  /** The record sets `allcJPDs` builds for `states`, in order, each over the pairs `combinations`. */
  function SweepRecords(net: Net, sqrt: real -> real, condNode: Node, states: seq<string>,
                        combinations: seq<(Node, Node)>): (r: seq<seq<PairResult>>)
    ensures |r| == |states|
  {
    Map(cs => CondRecords(net, sqrt, condNode, cs, combinations), states)
  }

  /**
   The outer loop of `allcJPDs`: for each conditioning state in turn, the
   records of every pair of `combinations`, with the progress figures of the
   whole sweep over `total` pairs, `|combinations|` for each state.
   */
  method CondSweep(net: Net, sqrt: real -> real, condNode: Node, condStates: seq<string>,
                   combinations: seq<(Node, Node)>, total: nat)
    returns (datas: seq<seq<PairResult>>, reported: seq<nat>)
    requires total == PairsBefore(|condStates|, |combinations|)
    ensures datas == SweepRecords(net, sqrt, condNode, condStates, combinations)
    ensures reported == Reports(0, total, total)
  {
    var n, m := |combinations|, |condStates|;
    datas := [];
    reported := [];
    var progress := 0;
    for s := 0 to m
      invariant progress == PairsBefore(s, n) <= total
      invariant reported == Reports(0, progress, total)
      invariant datas == SweepRecords(net, sqrt, condNode, condStates[..s], combinations)
    {
      PairsBeforeMonotone(s + 1, m, n);
      var data, percents := CondResultSet(net, sqrt, condNode, condStates[s], combinations, progress, total);
      assert reported + percents == Reports(0, progress + n, total) by {
        ReportsAppend(0, progress, n, total);
      }
      reported := reported + percents;
      progress := progress + n;
      assert condStates[..s + 1][..s] == condStates[..s];
      datas := datas + [data];
    }
    assert condStates[..m] == condStates;
  }

  /**
   `allcJPDs`: for each conditioning state, in the given order, the records
   of every pair of the sorted output nodes. `reported` is the sequence of
   progress percentages printed along the way, one per pair of the whole sweep.
   */
  method AllCJPDs(net: Net, sqrt: real -> real, condNode: Node, condStates: seq<string>)
    returns (datas: seq<seq<PairResult>>, reported: seq<nat>)
    ensures |datas| == |condStates|
    ensures forall s :: 0 <= s < |datas| ==> 2 * |datas[s]| == |net.outputs| * (|net.outputs| - 1)
    ensures forall s :: 0 <= s < |datas| ==>
      datas[s] == CondRecords(net, sqrt, condNode, condStates[s], Combinations(SortNames(net.outputs)))
    ensures |reported| == |Combinations(SortNames(net.outputs))| * |condStates|
    ensures reported == Reports(0, |reported|, |reported|)
  {
    var onodes := SortNames(net.outputs);
    IndexPairsCount(0, |onodes|);
    assert |onodes| == |net.outputs| by {
      assert |multiset(onodes)| == |multiset(net.outputs)|;
    }
    var combinations := Combinations(onodes);
    var total := |combinations| * |condStates|;
    PairsBeforeProduct(|condStates|, |combinations|);
    datas, reported := CondSweep(net, sqrt, condNode, condStates, combinations, total);
  }
}
