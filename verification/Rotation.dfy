/** Rotation through the repositories: each collection takes the next batch of a bounded size. */
module Rotation {
  class RepoRotation {
    /** Zero is no bound. */
    const batchSize: nat
    var cursor: nat

    constructor (batchSize: nat)
      ensures this.batchSize == batchSize && cursor == 0
    {
      this.batchSize, cursor := batchSize, 0;
    }

    method NextBatch(repos: seq<string>) returns (batch: seq<string>)
      modifies this
      ensures batchSize == 0 || |repos| <= batchSize ==> batch == repos && cursor == old(cursor)
      ensures 0 < batchSize < |repos| ==>
                && |batch| == batchSize
                && (forall i :: 0 <= i < batchSize ==> batch[i] == repos[(old(cursor) + i) % |repos|])
                && cursor == (old(cursor) + batchSize) % |repos|
      ensures 0 < batchSize < |repos| ==>
                && |batch| == batchSize
                && (forall i :: 0 <= i < batchSize ==> batch[i] == repos[Slot(old(cursor), |repos|, i)])
                && cursor == Advanced(old(cursor), |repos|, batchSize)
    {
      if batchSize == 0 || |repos| <= batchSize {
        return repos;
      }
      var start := cursor % |repos|;
      batch := [];
      for i := 0 to batchSize
        invariant |batch| == i && cursor == old(cursor)
        invariant forall k :: 0 <= k < i ==>
                    batch[k] == repos[Slot(cursor, |repos|, k)] == repos[(cursor + k) % |repos|]
      {
        ModAdd(cursor, i, |repos|);
        batch := batch + [repos[(start + i) % |repos|]];
      }
      ModAdd(cursor, batchSize, |repos|);
      cursor := (start + batchSize) % |repos|;
    }
  }

  /** The index that position `i` of a batch has in a list of length `n`. */
  function Slot(cursor: nat, n: nat, i: nat): (index: nat)
    requires n > 0
    ensures index < n
  {
    (cursor % n + i) % n
  }

  function Advanced(cursor: nat, n: nat, limit: nat): nat
    requires n > 0
  {
    (cursor % n + limit) % n
  }

  // ---------- consecutive calls on lists of one length ----------

  function CursorAfter(cursor: nat, n: nat, limit: nat, calls: nat): nat
    requires n > 0
  {
    if calls == 0 then cursor else Advanced(CursorAfter(cursor, n, limit, calls - 1), n, limit)
  }

  /** How often index `x` is among the first `size` positions of a batch. */
  function Hits(cursor: nat, n: nat, size: nat, x: nat): nat
    requires n > 0
  {
    if size == 0 then 0 else Hits(cursor, n, size - 1, x) + if Slot(cursor, n, size - 1) == x then 1 else 0
  }

  /** How often index `x` is returned by consecutive calls. */
  function TimesReturned(cursor: nat, n: nat, limit: nat, calls: nat, x: nat): nat
    requires n > 0
  {
    if calls == 0 then 0
    else
      TimesReturned(cursor, n, limit, calls - 1, x) + Hits(CursorAfter(cursor, n, limit, calls - 1), n, limit, x)
  }

  lemma Multiple(d: int, n: nat)
    ensures (d >= 1 ==> d * n >= n) && (d <= -1 ==> d * n <= 0 - n)
  {
    if d >= 1 {
      assert d * n == n + (d - 1) * n;
    } else if d <= -1 {
      assert d * n == 0 - n + (d + 1) * n;
    }
  }

  lemma ModUnique(a: int, n: nat, q: int, r: nat)
    requires n > 0 && r < n && a == q * n + r
    ensures a % n == r && a / n == q
  {
    var d := a / n - q;
    assert d * n == (a / n) * n - q * n == r - a % n;
    Multiple(d, n);
  }

  lemma ModAdd(a: nat, b: nat, n: nat)
    requires n > 0
    ensures (a % n + b) % n == (a + b) % n
  {
    var q, r := (a % n + b) / n, (a % n + b) % n;
    assert a + b == (a / n) * n + q * n + r;
    assert (a / n) * n + q * n == (a / n + q) * n;
    ModUnique(a + b, n, a / n + q, r);
  }

  lemma {:induction false} CursorIs(cursor: nat, n: nat, limit: nat, calls: nat)
    requires n > 0
    ensures CursorAfter(cursor, n, limit, calls) % n == (cursor + calls * limit) % n
  {
    if calls > 0 {
      var before := CursorAfter(cursor, n, limit, calls - 1);
      CursorIs(cursor, n, limit, calls - 1);
      ModAdd(cursor + (calls - 1) * limit, limit, n);
      assert (calls - 1) * limit + limit == calls * limit;
      ModAdd(before % n + limit, 0, n);
    }
  }

  /** Position `i` of the last of `calls` batches continues where the batches before it ended. */
  lemma SlotIs(cursor: nat, n: nat, limit: nat, calls: nat, i: nat)
    requires n > 0
    ensures Slot(CursorAfter(cursor, n, limit, calls), n, i) == (cursor + calls * limit + i) % n
  {
    CursorIs(cursor, n, limit, calls);
    ModAdd(cursor + calls * limit, i, n);
  }

  lemma {:induction false} HitsAppend(cursor: nat, n: nat, limit: nat, calls: nat, i: nat, x: nat)
    requires n > 0
    ensures Hits(cursor, n, calls * limit + i, x) ==
              Hits(cursor, n, calls * limit, x) + Hits(CursorAfter(cursor, n, limit, calls), n, i, x)
  {
    if i > 0 {
      HitsAppend(cursor, n, limit, calls, i - 1, x);
      SlotIs(cursor, n, limit, calls, i - 1);
      SlotIs(cursor, n, limit, 0, calls * limit + i - 1);
    }
  }

  lemma {:induction false} TimesReturnedIsHits(cursor: nat, n: nat, limit: nat, calls: nat, x: nat)
    requires n > 0
    ensures TimesReturned(cursor, n, limit, calls, x) == Hits(cursor, n, calls * limit, x)
  {
    if calls > 0 {
      TimesReturnedIsHits(cursor, n, limit, calls - 1, x);
      HitsAppend(cursor, n, limit, calls - 1, limit, x);
      assert (calls - 1) * limit + limit == calls * limit;
    }
  }

  /** The first position at which `x` comes up. */
  function Delay(cursor: nat, n: nat, x: nat): (d: nat)
    requires x < n
    ensures d < n
  {
    if x >= cursor % n then x - cursor % n else x - cursor % n + n
  }

  lemma ShiftIsIdentityIff(a: nat, x: nat, m: nat, n: nat)
    requires x < n && (a == x + m || a == x + m - n)
    ensures a % n == x <==> m % n == 0
  {
    var q, r := if a == x + m then m / n else m / n - 1, m % n;
    assert a == q * n + (x + r);
    if x + r < n {
      ModUnique(a, n, q, x + r);
    } else {
      assert a == (q + 1) * n + (x + r - n);
      ModUnique(a, n, q + 1, x + r - n);
    }
  }

  lemma SlotIsIff(cursor: nat, n: nat, t: nat, x: nat)
    requires x < n
    ensures Slot(cursor, n, t) == x <==> (t + n - Delay(cursor, n, x)) % n == 0
  {
    ShiftIsIdentityIff(cursor % n + t, x, t + n - Delay(cursor, n, x), n);
  }

  lemma DivNext(m: nat, n: nat)
    requires n > 0
    ensures (m + 1) / n == m / n + if (m + 1) % n == 0 then 1 else 0
  {
    if (m + 1) % n == 0 {
      assert m == ((m + 1) / n - 1) * n + (n - 1);
      ModUnique(m, n, (m + 1) / n - 1, n - 1);
    } else {
      assert m == ((m + 1) / n) * n + ((m + 1) % n - 1);
      ModUnique(m, n, (m + 1) / n, (m + 1) % n - 1);
    }
  }

  lemma {:induction false} HitsIs(cursor: nat, n: nat, size: nat, x: nat)
    requires x < n
    ensures Hits(cursor, n, size, x) == (size + n - 1 - Delay(cursor, n, x)) / n
  {
    var d := Delay(cursor, n, x);
    if size == 0 {
      ModUnique(n - 1 - d, n, 0, n - 1 - d);
    } else {
      HitsIs(cursor, n, size - 1, x);
      SlotIsIff(cursor, n, size - 1, x);
      DivNext(size - 1 + n - 1 - d, n);
    }
  }

  lemma {:induction false} DivMonotone(a: nat, b: nat, n: nat)
    requires n > 0 && a <= b
    ensures a / n <= b / n
  {
    if a < b {
      DivMonotone(a, b - 1, n);
      DivNext(b - 1, n);
    }
  }

  /** Fair rotation: over consecutive calls every index is returned equally often, up to one. */
  lemma FairRotation(cursor: nat, n: nat, limit: nat, calls: nat, x: nat)
    requires x < n
    ensures calls * limit / n <= TimesReturned(cursor, n, limit, calls, x) <= (calls * limit + n - 1) / n
  {
    TimesReturnedIsHits(cursor, n, limit, calls, x);
    HitsIs(cursor, n, calls * limit, x);
    var d := Delay(cursor, n, x);
    DivMonotone(calls * limit, calls * limit + n - 1 - d, n);
    DivMonotone(calls * limit + n - 1 - d, calls * limit + n - 1, n);
  }

  /** No index occurs twice in a batch. */
  lemma BatchIsDistinct(cursor: nat, n: nat, limit: nat, i: nat, j: nat)
    requires i < j < limit < n
    ensures Slot(cursor, n, i) != Slot(cursor, n, j)
  {
    var c := cursor % n;
    ModUnique(c + i, n, if c + i < n then 0 else 1, if c + i < n then c + i else c + i - n);
    ModUnique(c + j, n, if c + j < n then 0 else 1, if c + j < n then c + j else c + j - n);
  }

  /** Enough calls to fill the list once cover all of it. */
  lemma Coverage(cursor: nat, n: nat, limit: nat, x: nat)
    requires x < n && limit > 0
    ensures TimesReturned(cursor, n, limit, (n + limit - 1) / limit, x) >= 1
  {
    var calls := (n + limit - 1) / limit;
    assert calls * limit >= n by {
      assert calls * limit == n + limit - 1 - (n + limit - 1) % limit;
    }
    FairRotation(cursor, n, limit, calls, x);
    ModUnique(n, n, 1, 0);
    DivMonotone(n, calls * limit, n);
  }
}
