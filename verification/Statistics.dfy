/** Averages, percentiles and shares of samples, over the reals. */
module Statistics {
  import opened Sorting

  const ALMOST_ONE := 0.999999999

  function Sum(values: seq<real>): real {
    if values == [] then 0.0 else Sum(values[..|values| - 1]) + values[|values| - 1]
  }

  /** A sum is that of its parts, and of one value the value. */
  lemma {:induction false} SumOfParts(a: seq<real>, b: seq<real>)
    ensures Sum(a + b) == Sum(a) + Sum(b) && (|a| == 1 ==> Sum(a) == a[0])
  {
    if b == [] {
      assert a + b == a;
    } else {
      SumOfParts(a, b[..|b| - 1]);
      assert (a + b)[..|a + b| - 1] == a + b[..|b| - 1];
    }
    if |a| == 1 {
      assert a[..0] == [];
    }
  }

  predicate Smaller(a: real, b: real) {
    a < b
  }

  function CountAtMost(values: seq<real>, bound: real): nat {
    if values == [] then 0
    else CountAtMost(values[..|values| - 1], bound) + if values[|values| - 1] <= bound then 1 else 0
  }

  function CountBelow(values: seq<real>, bound: real): nat {
    if values == [] then 0
    else CountBelow(values[..|values| - 1], bound) + if values[|values| - 1] < bound then 1 else 0
  }

  /** The counts are of positions. */
  lemma {:induction false} AtMostAre(values: seq<real>, bound: real)
    ensures CountAtMost(values, bound) == |set i: nat | i < |values| && values[i] <= bound|
  {
    if values != [] {
      var n := |values| - 1;
      AtMostAre(values[..n], bound);
      assert (set i: nat | i < |values| && values[i] <= bound) ==
             (set i: nat | i < n && values[..n][i] <= bound) + if values[n] <= bound then {n} else {};
    }
  }

  lemma {:induction false} BelowAre(values: seq<real>, bound: real)
    ensures CountBelow(values, bound) == |set i: nat | i < |values| && values[i] < bound|
  {
    if values != [] {
      var n := |values| - 1;
      BelowAre(values[..n], bound);
      assert (set i: nat | i < |values| && values[i] < bound) ==
             (set i: nat | i < n && values[..n][i] < bound) + if values[n] < bound then {n} else {};
    }
  }

  predicate IsAverage(values: seq<real>, average: real) {
    average * |values| as real == Sum(values) && (values == [] ==> average == 0.0)
  }

  method Average(values: seq<real>) returns (average: real)
    ensures IsAverage(values, average)
  {
    if |values| == 0 {
      return 0.0;
    }
    var total := 0.0;
    for i := 0 to |values|
      invariant total == Sum(values[..i])
    {
      assert values[..i + 1][..i] == values[..i];
      total := total + values[i];
    }
    assert values[..|values|] == values;
    average := total / |values| as real;
  }

  lemma {:induction false} SumBounds(values: seq<real>, low: real, high: real)
    requires forall i :: 0 <= i < |values| ==> low <= values[i] <= high
    ensures low * |values| as real <= Sum(values) <= high * |values| as real
  {
    if values != [] {
      SumBounds(values[..|values| - 1], low, high);
      assert low * |values| as real == low * (|values| - 1) as real + low;
      assert high * |values| as real == high * (|values| - 1) as real + high;
    }
  }

  /** An average lies between any bounds of its values. */
  lemma AverageBounds(values: seq<real>, average: real, low: real, high: real)
    requires values != [] && IsAverage(values, average)
    requires forall i :: 0 <= i < |values| ==> low <= values[i] <= high
    ensures low <= average <= high
  {
    SumBounds(values, low, high);
  }

  /** What a percentile says: at least a share `target` of the values are at most `p`, and the share of
      smaller values is no more than the next rank allows. */
  ghost predicate IsPercentile(values: seq<real>, target: real, p: real) {
    && p in values
    && (target <= 0.999999999 ==> CountAtMost(values, p) as real >= target * |values| as real)
    && (0.0 < target < 1.0 ==> CountBelow(values, p) as real <= target * (|values| - 1) as real + 0.999999999)
    && (target >= 1.0 ==> CountAtMost(values, p) >= |values|)
    && (target <= 0.0 ==> CountBelow(values, p) == 0)
  }

  /** The value at the rank that `target` asks for, rounded up, in a sorted copy. */
  method Percentile(values: seq<real>, target: real) returns (p: real)
    ensures if values == [] then p == 0.0 else IsPercentile(values, target, p)
  {
    hide IsPercentile;
    if |values| == 0 {
      return 0.0;
    }
    SortPermutes(values, Smaller);
    var sorted := StableSort(values, Smaller);
    p := sorted[IndexFor(|values|, target)];
    RankIsPercentile(values, target);
  }

  /** The code's index. Its last guard, against an index past the end, never applies. */
  function IndexFor(n: nat, target: real): (index: nat)
    requires n > 0
    ensures index < n
    ensures 0.0 < target < 1.0 ==> index as real <= target * (n - 1) as real + 0.999999999
    ensures target <= 0.999999999 ==> (index + 1) as real >= target * n as real
    ensures (target <= 0.0 ==> index == 0) && (target >= 1.0 ==> index == n - 1)
  {
    if target <= 0.0 then
      NonPositive(n, target);
      0
    else if target >= 1.0 then n - 1
    else
      Scale(n, target);
      (target * (n - 1) as real + ALMOST_ONE).Floor
  }

  lemma NonPositive(n: nat, target: real)
    requires target <= 0.0
    ensures target * n as real <= 0.0
  {
  }

  lemma RankIsPercentile(values: seq<real>, target: real)
    requires values != [] && |StableSort(values, Smaller)| == |values|
    ensures IsPercentile(values, target, StableSort(values, Smaller)[IndexFor(|values|, target)])
  {
    hide CountAtMost, CountBelow, StableSort, IndexFor;
    SortPermutes(values, Smaller);
    SortSorts(values, Smaller);
    var sorted, rank := StableSort(values, Smaller), IndexFor(|values|, target);
    RankCounts(values, sorted, rank);
    assert sorted[rank] in multiset(values);
  }

  lemma Scale(n: nat, target: real)
    requires n > 0 && 0.0 < target < 1.0
    ensures 0.0 <= target * (n - 1) as real <= (n - 1) as real
    ensures target * n as real == target * (n - 1) as real + target
    ensures target * n as real <= n as real
  {
  }

  lemma RankCounts(values: seq<real>, sorted: seq<real>, rank: nat)
    requires Permutation(sorted, values) && Sorted(sorted, Smaller) && rank < |sorted|
    ensures CountAtMost(values, sorted[rank]) >= rank + 1
    ensures CountBelow(values, sorted[rank]) <= rank
  {
    CountsPermute(sorted, values, sorted[rank]);
    AtMostRank(sorted, rank, |sorted|);
    BelowRank(sorted, rank, |sorted|);
    assert sorted[..|sorted|] == sorted;
  }

  lemma {:induction false} AtMostRank(sorted: seq<real>, rank: nat, n: nat)
    requires Sorted(sorted, Smaller) && rank < |sorted| && n <= |sorted|
    ensures CountAtMost(sorted[..n], sorted[rank]) >= if n <= rank then n else rank + 1
  {
    if n > 0 {
      AtMostRank(sorted, rank, n - 1);
      assert sorted[..n][..n - 1] == sorted[..n - 1];
      assert n - 1 <= rank ==> sorted[n - 1] <= sorted[rank];
    }
  }

  lemma {:induction false} BelowRank(sorted: seq<real>, rank: nat, n: nat)
    requires Sorted(sorted, Smaller) && rank < |sorted| && n <= |sorted|
    ensures CountBelow(sorted[..n], sorted[rank]) <= if n <= rank then n else rank
  {
    if n > 0 {
      BelowRank(sorted, rank, n - 1);
      assert sorted[..n][..n - 1] == sorted[..n - 1];
      assert n - 1 >= rank ==> sorted[n - 1] >= sorted[rank];
    }
  }

  function Without(b: seq<real>, k: nat): seq<real>
    requires k < |b|
  {
    b[..k] + b[k + 1..]
  }

  lemma RestPermutes(a: seq<real>, b: seq<real>, n: nat, k: nat)
    requires Permutation(a, b) && |a| == n + 1 && k < |b| && b[k] == a[n]
    ensures Permutation(a[..n], Without(b, k))
  {
    assert b == b[..k] + [b[k]] + b[k + 1..];
    assert a == a[..n] + [a[n]];
    assert multiset(a[..n]) == multiset(a) - multiset{a[n]};
    assert multiset(Without(b, k)) == multiset(b) - multiset{a[n]};
  }

  lemma {:induction false} CountsPermute(a: seq<real>, b: seq<real>, bound: real)
    requires Permutation(a, b)
    ensures CountAtMost(a, bound) == CountAtMost(b, bound) && CountBelow(a, bound) == CountBelow(b, bound)
  {
    hide Permutation, Without;
    PermutationLast(a, b);
    if a != [] {
      var n := |a| - 1;
      var k :| 0 <= k <= n && b[k] == a[n];
      Extracted(b, k, bound);
      RestPermutes(a, b, n, k);
      CountsPermute(a[..n], Without(b, k), bound);
    }
  }

  lemma {:induction false} Extracted(b: seq<real>, k: nat, bound: real)
    requires k < |b|
    ensures var rest := Without(b, k);
            && CountAtMost(b, bound) == CountAtMost(rest, bound) + (if b[k] <= bound then 1 else 0)
            && CountBelow(b, bound) == CountBelow(rest, bound) + (if b[k] < bound then 1 else 0)
  {
    var n := |b| - 1;
    var rest := Without(b, k);
    if k == n {
      assert rest == b[..n];
    } else {
      Extracted(b[..n], k, bound);
      assert rest[..|rest| - 1] == Without(b[..n], k);
      assert rest[|rest| - 1] == b[n] && b[..n][k] == b[k];
    }
  }
}
