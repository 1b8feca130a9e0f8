/** Stable sorting by a comparison function. */
module Sorting {
  ghost predicate StrictWeakOrder<T(!new)>(less: (T, T) -> bool) {
    && (forall a :: !less(a, a))
    && (forall a, b, c :: less(a, b) && less(b, c) ==> less(a, c))
    && (forall a, b, c :: !less(a, b) && !less(b, c) ==> !less(a, c))
  }

  ghost predicate Sorted<T>(s: seq<T>, less: (T, T) -> bool) {
    forall i, j :: 0 <= i < j < |s| ==> !less(s[j], s[i])
  }

  /** Puts `x` behind every element that is not after it. */
  function Insert<T>(x: T, s: seq<T>, less: (T, T) -> bool): seq<T> {
    if s == [] || !less(x, s[|s| - 1]) then s + [x]
    else Insert(x, s[..|s| - 1], less) + [s[|s| - 1]]
  }

  function StableSort<T>(s: seq<T>, less: (T, T) -> bool): seq<T> {
    if s == [] then [] else Insert(s[|s| - 1], StableSort(s[..|s| - 1], less), less)
  }

  function Filter<T>(p: T -> bool, s: seq<T>): seq<T> {
    if s == [] then []
    else Filter(p, s[..|s| - 1]) + if p(s[|s| - 1]) then [s[|s| - 1]] else []
  }

  /** `kept` are the elements of `s` that pass, in order; they were at `positions`. */
  ghost predicate Picked<T>(p: T -> bool, s: seq<T>, positions: seq<nat>, kept: seq<T>) {
    && |positions| == |kept|
    && (forall k :: 0 <= k < |kept| ==> positions[k] < |s| && kept[k] == s[positions[k]] && p(kept[k]))
    && (forall k, l :: 0 <= k < l < |kept| ==> positions[k] < positions[l])
    && (forall i :: 0 <= i < |s| && p(s[i]) ==> i in positions)
  }

  lemma PickedStep<T>(p: T -> bool, s: seq<T>, n: nat, positions: seq<nat>, kept: seq<T>)
    requires |s| == n + 1 && Picked(p, s[..n], positions, kept)
    ensures if p(s[n]) then Picked(p, s, positions + [n], kept + [s[n]]) else Picked(p, s, positions, kept)
  {
    forall i | 0 <= i < |s| && p(s[i])
      ensures i in positions + [n] && (i < n ==> i in positions)
    {
      if i < n {
        assert s[..n][i] == s[i];
      }
    }
  }

  /** A filter keeps exactly the elements that pass, in order. */
  lemma {:induction false} FilterPicks<T>(p: T -> bool, s: seq<T>) returns (positions: seq<nat>)
    ensures Picked(p, s, positions, Filter(p, s))
  {
    positions := [];
    if s != [] {
      hide Picked;
      var n := |s| - 1;
      positions := FilterPicks(p, s[..n]);
      PickedStep(p, s, n, positions, Filter(p, s[..n]));
      if p(s[n]) {
        positions := positions + [n];
      } else {
        assert Filter(p, s) == Filter(p, s[..n]);
      }
    }
  }

  lemma {:induction false} InsertPermutes<T>(x: T, s: seq<T>, less: (T, T) -> bool)
    ensures multiset(Insert(x, s, less)) == multiset(s) + multiset{x}
  {
    if s != [] && less(x, s[|s| - 1]) {
      InsertPermutes(x, s[..|s| - 1], less);
      assert s == s[..|s| - 1] + [s[|s| - 1]];
    }
  }

  lemma {:induction false} SortPermutes<T>(s: seq<T>, less: (T, T) -> bool)
    ensures multiset(StableSort(s, less)) == multiset(s)
    ensures |StableSort(s, less)| == |s|
  {
    if s != [] {
      SortPermutes(s[..|s| - 1], less);
      InsertPermutes(s[|s| - 1], StableSort(s[..|s| - 1], less), less);
      assert s == s[..|s| - 1] + [s[|s| - 1]];
    }
    assert |multiset(StableSort(s, less))| == |multiset(s)|;
  }

  lemma {:induction false} InsertSorts<T(!new)>(x: T, s: seq<T>, less: (T, T) -> bool)
    requires StrictWeakOrder(less) && Sorted(s, less)
    ensures Sorted(Insert(x, s, less), less)
  {
    if s != [] && less(x, s[|s| - 1]) {
      var last, before := s[|s| - 1], s[..|s| - 1];
      InsertSorts(x, before, less);
      InsertPermutes(x, before, less);
      var r := Insert(x, before, less);
      forall i | 0 <= i < |r|
        ensures !less(last, r[i])
      {
        assert r[i] in multiset(r);
        if r[i] != x {
          assert r[i] in before;
        }
      }
    } else if s != [] {
      forall i | 0 <= i < |s|
        ensures !less(x, s[i])
      {
        assert !less(x, s[|s| - 1]) && !less(s[|s| - 1], s[i]);
      }
    }
  }

  lemma {:induction false} SortSorts<T(!new)>(s: seq<T>, less: (T, T) -> bool)
    requires StrictWeakOrder(less)
    ensures Sorted(StableSort(s, less), less)
  {
    if s != [] {
      SortSorts(s[..|s| - 1], less);
      InsertSorts(s[|s| - 1], StableSort(s[..|s| - 1], less), less);
    }
  }

  lemma {:induction false} InsertIsStable<T>(x: T, s: seq<T>, less: (T, T) -> bool, p: T -> bool)
    requires forall a, b :: a in s + [x] && b in s + [x] && p(a) && p(b) ==> !less(a, b)
    ensures Filter(p, Insert(x, s, less)) == Filter(p, s + [x])
  {
    assert (s + [x])[..|s|] == s;
    if s != [] && less(x, s[|s| - 1]) {
      var last, before := s[|s| - 1], s[..|s| - 1];
      InsertIsStable(x, before, less, p);
      assert (before + [x])[..|before|] == before;
      var r := Insert(x, before, less);
      assert (r + [last])[..|r|] == r;
      assert x in s + [x] && last in s + [x];
    }
  }

  /** Elements that the order does not tell apart keep their order. */
  lemma {:induction false} SortIsStable<T>(s: seq<T>, less: (T, T) -> bool, p: T -> bool)
    requires forall a, b :: a in s && b in s && p(a) && p(b) ==> !less(a, b)
    ensures Filter(p, StableSort(s, less)) == Filter(p, s)
  {
    if s != [] {
      var last, before := s[|s| - 1], s[..|s| - 1];
      var r := StableSort(before, less);
      SortIsStable(before, less, p);
      SortPermutes(before, less);
      forall a | a in r + [last]
        ensures a in s
      {
        assert a == last || a in multiset(r);
      }
      InsertIsStable(last, r, less, p);
      assert (r + [last])[..|r|] == r;
    }
  }

  ghost predicate ToldApart<T>(s: seq<T>, less: (T, T) -> bool) {
    forall i, j :: 0 <= i < j < |s| ==> less(s[i], s[j]) || less(s[j], s[i])
  }

  lemma LastsAgree<T(!new)>(a: seq<T>, b: seq<T>, less: (T, T) -> bool, n: nat)
    requires |a| == |b| == n + 1
    requires Sorted(a, less) && Sorted(b, less) && ToldApart(a, less)
    requires a[n] in b && b[n] in a
    ensures a[n] == b[n]
  {
    var k :| 0 <= k <= n && b[k] == a[n];
    var m :| 0 <= m <= n && a[m] == b[n];
  }

  ghost predicate Permutation<T>(a: seq<T>, b: seq<T>) {
    multiset(a) == multiset(b)
  }

  lemma PermutationLast<T>(a: seq<T>, b: seq<T>)
    requires Permutation(a, b)
    ensures |a| == |b|
    ensures a != [] ==> a[|a| - 1] in b && b[|a| - 1] in a
  {
    assert |multiset(a)| == |multiset(b)|;
    if a != [] {
      assert a[|a| - 1] in multiset(b) && b[|a| - 1] in multiset(a);
    }
  }

  lemma PermutationInit<T>(a: seq<T>, b: seq<T>, n: nat)
    requires Permutation(a, b) && |a| == |b| == n + 1 && a[n] == b[n]
    ensures Permutation(a[..n], b[..n])
  {
    assert a == a[..n] + [a[n]] && b == b[..n] + [b[n]];
    assert multiset(a[..n]) == multiset(a) - multiset{a[n]};
    assert multiset(b[..n]) == multiset(b) - multiset{b[n]};
  }

  lemma PrefixSorted<T>(s: seq<T>, less: (T, T) -> bool, n: nat)
    requires n <= |s| && Sorted(s, less)
    ensures Sorted(s[..n], less)
    ensures ToldApart(s, less) ==> ToldApart(s[..n], less)
  {
  }

  /** Two sorted arrangements of the same elements are equal if the order tells all of them apart. */
  lemma {:induction false} SortedIsUnique<T(!new)>(a: seq<T>, b: seq<T>, less: (T, T) -> bool)
    requires Sorted(a, less) && Sorted(b, less) && ToldApart(a, less)
    requires Permutation(a, b)
    ensures a == b
  {
    hide Sorted, ToldApart, Permutation;
    PermutationLast(a, b);
    if a != [] {
      var n := |a| - 1;
      LastsAgree(a, b, less, n);
      PrefixSorted(a, less, n);
      PrefixSorted(b, less, n);
      PermutationInit(a, b, n);
      SortedIsUnique(a[..n], b[..n], less);
      assert a == a[..n] + [a[n]] && b == b[..n] + [b[n]];
    }
  }

  ghost predicate NoDuplicates<T>(s: seq<T>) {
    forall i, j :: 0 <= i < j < |s| ==> s[i] != s[j]
  }

  lemma {:induction false} CountedOnce<T>(s: seq<T>, x: T)
    requires NoDuplicates(s)
    ensures multiset(s)[x] <= 1
  {
    if s != [] {
      var before, last := s[..|s| - 1], s[|s| - 1];
      CountedOnce(before, x);
      assert s == before + [last];
      assert last !in before;
    }
  }

  lemma RepeatedTwice<T>(s: seq<T>, i: nat, j: nat)
    requires i < j < |s| && s[i] == s[j]
    ensures multiset(s)[s[i]] >= 2
  {
    assert s == s[..j] + [s[j]] + s[j + 1..];
    assert s[..j][i] == s[i] && s[i] in multiset(s[..j]);
  }

  lemma NoDuplicatesInAnyOrder<T>(s: seq<T>, t: seq<T>)
    requires NoDuplicates(s) && Permutation(s, t)
    ensures NoDuplicates(t)
  {
    forall i, j | 0 <= i < j < |t|
      ensures t[i] != t[j]
    {
      CountedOnce(s, t[i]);
      if t[i] == t[j] {
        RepeatedTwice(t, i, j);
      }
    }
  }
}
