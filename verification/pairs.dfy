/**
 The enumeration of node pairs: `itertools.combinations(nodes, 2)` and
 `sorted(nodes)` on node names.
 */
module Pairs {
  import opened Network

  /** Strict lexicographic order on index pairs: the order combinations are produced in. */
  predicate PairBefore(x: (nat, nat), y: (nat, nat))
  {
    x.0 < y.0 || (x.0 == y.0 && x.1 < y.1)
  }

  /**
   The index pairs (i, j) with lo <= i < j < k, in the order
   `itertools.combinations(range(lo, k), 2)` yields them: i fixed while j runs
   upwards, then the next i.
   */
  function IndexPairs(lo: nat, k: nat): (ps: seq<(nat, nat)>)
    decreases k - lo
    ensures forall q :: 0 <= q < |ps| ==> lo <= ps[q].0 < ps[q].1 < k
  {
    if k <= lo then []
    else seq(k - lo - 1, j requires 0 <= j < k - lo - 1 => (lo, lo + 1 + j)) + IndexPairs(lo + 1, k)
  }

  /** There are C(k − lo, 2) of them. */
  lemma {:induction false} IndexPairsCount(lo: nat, k: nat)
    requires lo <= k
    ensures 2 * |IndexPairs(lo, k)| == (k - lo) * (k - lo - 1)
    decreases k - lo
  {
    if lo < k {
      IndexPairsCount(lo + 1, k);
      var n := k - lo;
      assert 2 * |IndexPairs(lo, k)| == 2 * (n - 1) + (n - 1) * (n - 2);
      assert 2 * (n - 1) + (n - 1) * (n - 2) == n * (n - 1);
    }
  }

  /** They come in strictly increasing lexicographic order, so none is repeated. */
  lemma {:induction false} IndexPairsIncreasing(lo: nat, k: nat)
    ensures forall p, q :: 0 <= p < q < |IndexPairs(lo, k)| ==> PairBefore(IndexPairs(lo, k)[p], IndexPairs(lo, k)[q])
    decreases k - lo
  {
    if lo < k {
      IndexPairsIncreasing(lo + 1, k);
      var ps, head := IndexPairs(lo, k), k - lo - 1;
      forall p, q | 0 <= p < q < |ps|
        ensures PairBefore(ps[p], ps[q])
      {
        if head <= p {
          assert ps[p] == IndexPairs(lo + 1, k)[p - head];
          assert ps[q] == IndexPairs(lo + 1, k)[q - head];
        } else if head <= q {
          assert ps[p].0 == lo;
          assert ps[q] == IndexPairs(lo + 1, k)[q - head];
        }
      }
    }
  }

  /** Every pair i < j in range is produced, at position `q`. */
  lemma {:induction false} IndexPairsComplete(lo: nat, k: nat, i: nat, j: nat) returns (q: nat)
    requires lo <= i < j < k
    ensures q < |IndexPairs(lo, k)| && IndexPairs(lo, k)[q] == (i, j)
    decreases k - lo
  {
    var head := k - lo - 1;
    if i == lo {
      q := j - lo - 1;
    } else {
      var q' := IndexPairsComplete(lo + 1, k, i, j);
      q := head + q';
      assert IndexPairs(lo, k)[q] == IndexPairs(lo + 1, k)[q'];
    }
  }

  /** `itertools.combinations(nodes, 2)`: the pairs (nodes[i], nodes[j]) for the index pairs i < j. */
  function Combinations(nodes: seq<Node>): (cs: seq<(Node, Node)>)
    ensures |cs| == |IndexPairs(0, |nodes|)|
  {
    var ps := IndexPairs(0, |nodes|);
    seq(|ps|, q requires 0 <= q < |ps| => (nodes[ps[q].0], nodes[ps[q].1]))
  }

  /**
   The combinations of k nodes: C(k, 2) of them, each pair taking its first
   node from an earlier position than its second, every such choice of
   positions exactly once, in lexicographic order of the positions.
   */
  lemma CombinationsOrder(nodes: seq<Node>)
    ensures 2 * |Combinations(nodes)| == |nodes| * (|nodes| - 1)
    ensures forall q :: 0 <= q < |Combinations(nodes)| ==>
      var (i, j) := IndexPairs(0, |nodes|)[q];
      i < j < |nodes| && Combinations(nodes)[q] == (nodes[i], nodes[j])
    ensures forall p, q :: 0 <= p < q < |Combinations(nodes)| ==>
      PairBefore(IndexPairs(0, |nodes|)[p], IndexPairs(0, |nodes|)[q])
    ensures forall i, j :: 0 <= i < j < |nodes| ==> (i, j) in IndexPairs(0, |nodes|)
  {
    IndexPairsCount(0, |nodes|);
    IndexPairsIncreasing(0, |nodes|);
    forall i, j | 0 <= i < j < |nodes|
      ensures (i, j) in IndexPairs(0, |nodes|)
    {
      var q := IndexPairsComplete(0, |nodes|, i, j);
    }
  }

  /** Python's order on byte strings: lexicographic, a proper prefix first. */
  predicate Below(x: string, y: string)
    decreases |x|
  {
    |x| == 0 || (|y| != 0 && (x[0] < y[0] || (x[0] == y[0] && Below(x[1..], y[1..]))))
  }

  /** Any two names are comparable. */
  lemma {:induction false} BelowTotal(x: string, y: string)
    ensures Below(x, y) || Below(y, x)
    decreases |x|
  {
    if |x| != 0 && |y| != 0 && x[0] == y[0] {
      BelowTotal(x[1..], y[1..]);
    }
  }

  /** Every name is below itself. */
  lemma {:induction false} BelowReflexive(x: string)
    ensures Below(x, x)
    decreases |x|
  {
    if |x| != 0 {
      BelowReflexive(x[1..]);
    }
  }

  /** The order is transitive. */
  lemma {:induction false} BelowTransitive(x: string, y: string, z: string)
    requires Below(x, y) && Below(y, z)
    ensures Below(x, z)
    decreases |x|
  {
    if |x| != 0 && x[0] == y[0] && y[0] == z[0] {
      BelowTransitive(x[1..], y[1..], z[1..]);
    }
  }

  /** The order is antisymmetric. */
  lemma {:induction false} BelowAntisymmetric(x: string, y: string)
    requires Below(x, y) && Below(y, x)
    ensures x == y
    decreases |x|
  {
    if |x| != 0 {
      BelowAntisymmetric(x[1..], y[1..]);
      assert x == [x[0]] + x[1..] && y == [y[0]] + y[1..];
    }
  }

  /** Names in ascending order. */
  ghost predicate SortedNames(s: seq<Node>)
  {
    forall i, j :: 0 <= i < j < |s| ==> Below(s[i], s[j])
  }

  /** Insert `x` into an ascending list, keeping it ascending. */
  function Insert(x: Node, s: seq<Node>): (r: seq<Node>)
    requires SortedNames(s)
    ensures SortedNames(r) && multiset(r) == multiset(s) + multiset{x}
  {
    if |s| == 0 then [x]
    else if Below(x, s[0]) then
      assert forall j :: 0 <= j < |s| ==> Below(x, s[j]) by {
        forall j | 0 <= j < |s| ensures Below(x, s[j]) {
          if j > 0 { BelowTransitive(x, s[0], s[j]); }
        }
      }
      [x] + s
    else
      var rest := Insert(x, s[1..]);
      assert s == [s[0]] + s[1..];
      assert forall k :: 0 <= k < |rest| ==> Below(s[0], rest[k]) by {
        forall k | 0 <= k < |rest| ensures Below(s[0], rest[k]) {
          assert rest[k] in multiset(rest);
          if rest[k] == x {
            BelowTotal(x, s[0]);
          } else {
            assert rest[k] in s[1..];
          }
        }
      }
      [s[0]] + rest
  }

  /** `sorted(nodes)`: the ascending permutation of the names. */
  function SortNames(s: seq<Node>): (r: seq<Node>)
    ensures SortedNames(r) && multiset(r) == multiset(s)
  {
    if |s| == 0 then []
    else
      assert s == s[..|s| - 1] + [s[|s| - 1]];
      Insert(s[|s| - 1], SortNames(s[..|s| - 1]))
  }

  /** The first name of an ascending list is below every name in it. */
  lemma HeadIsLeast(a: seq<Node>, x: Node)
    requires SortedNames(a) && x in multiset(a)
    ensures |a| != 0 && Below(a[0], x)
  {
    var i :| 0 <= i < |a| && a[i] == x;
    if i == 0 {
      BelowReflexive(x);
    }
  }

  /** An ascending list without its head is still ascending. */
  lemma SortedTail(a: seq<Node>)
    requires SortedNames(a) && |a| != 0
    ensures SortedNames(a[1..]) && multiset(a[1..]) == multiset(a) - multiset{a[0]}
  {
    assert a == [a[0]] + a[1..];
    forall i, j | 0 <= i < j < |a| - 1
      ensures Below(a[1..][i], a[1..][j])
    {
      assert a[1..][i] == a[i + 1] && a[1..][j] == a[j + 1];
    }
  }

  /** There is only one ascending permutation, so `SortNames` is `sorted` whatever algorithm it uses. */
  lemma {:induction false} SortedUnique(a: seq<Node>, b: seq<Node>)
    requires SortedNames(a) && SortedNames(b) && multiset(a) == multiset(b)
    ensures a == b
    decreases |a|
  {
    if |a| != 0 {
      assert a[0] in multiset(a);
      HeadIsLeast(b, a[0]);
      HeadIsLeast(a, b[0]);
      BelowAntisymmetric(a[0], b[0]);
      SortedTail(a);
      SortedTail(b);
      SortedUnique(a[1..], b[1..]);
      assert |a| == |b| by {
        assert |multiset(a)| == |multiset(b)|;
      }
      forall i | 0 < i < |a|
        ensures a[i] == b[i]
      {
        assert a[i] == a[1..][i - 1] && b[i] == b[1..][i - 1];
      }
    }
  }
}
