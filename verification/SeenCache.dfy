/** Delivery dedupe: a bounded cache of delivered keys, which `WorkflowPipeline` filters and marks by. */
module SeenCache {
  import opened Sequences
  import opened Sorting

  function Members<K>(keys: seq<K>): set<K> {
    set k | k in keys
  }

  function KeysOf<T, K>(items: seq<T>, key: T -> K): (r: seq<K>)
    ensures |r| == |items| && forall i :: 0 <= i < |r| ==> r[i] == key(items[i])
  {
    seq(|items|, i requires 0 <= i < |items| => key(items[i]))
  }

  /** The items whose key was neither delivered nor seen earlier in the batch. */
  function Fresh<T, K(==)>(items: seq<T>, key: T -> K, delivered: set<K>): seq<T> {
    if items == [] then []
    else
      var before, last := items[..|items| - 1], items[|items| - 1];
      Fresh(before, key, delivered) +
      if key(last) in delivered || key(last) in KeysOf(before, key) then [] else [last]
  }

  /** A key recurs only after more than `limit` positions. */
  ghost predicate Spaced<K>(appended: seq<K>, limit: nat) {
    forall i, j :: 0 <= i < j < |appended| && appended[i] == appended[j] ==> j - i > limit
  }

  class SeenCache<T, K(==)> {
    const limit: nat
    var keys: set<K>
    var order: seq<K>
    var file: seq<K>
    /** Every key appended since the cache was loaded, behind those kept from its file. */
    ghost var appended: seq<K>

    ghost predicate Valid()
      reads this
    {
      && keys == Members(order)
      && NoDuplicates(order)
      && order == Last(limit, appended)
      && Spaced(appended, limit)
    }

    constructor (limit: nat, file: seq<K>)
      ensures Valid() && this.limit == limit && this.file == file && keys == {} && order == [] && appended == []
    {
      this.limit, this.file, keys, order, appended := limit, file, {}, [], [];
    }

    /** Drops the oldest keys above the limit. */
    method Trim()
      modifies this
      ensures order == Last(limit, old(order))
      ensures keys == old(keys) - Members(old(order)[..|old(order)| - |order|])
      ensures file == old(file) && appended == old(appended)
    {
      ghost var all, was := order, keys;
      ghost var n := 0;
      while |order| > limit
        invariant n <= |all| && order == all[n..] && (n > 0 ==> |order| >= limit)
        invariant keys == was - Members(all[..n])
        invariant file == old(file) && appended == old(appended)
        decreases |order|
      {
        var oldest := order[0];
        assert all[..n + 1] == all[..n] + [oldest];
        order := order[1..];
        keys := keys - {oldest};
        n := n + 1;
      }
    }

    /** Rebuilds the cache from its file. It is valid exactly when no key that is kept occurs twice in the
        file; files written here hold no key twice. */
    method Load()
      requires keys == {} && order == []
      modifies this
      ensures file == old(file) && order == Last(limit, file) && appended == order
      ensures keys == Members(file) - Members(file[..|file| - |order|])
      ensures Valid() <==> KeptOnce(file, limit)
    {
      order := file;
      for i := 0 to |file|
        invariant file == old(file) && order == file && keys == Members(file[..i])
      {
        assert file[..i + 1] == file[..i] + [file[i]];
        keys := keys + {file[i]};
      }
      assert file[..|file|] == file;
      Trim();
      appended := order;
      LoadValidIff(file, limit);
    }

    method FilterNew(items: seq<T>, key: T -> K) returns (news: seq<T>)
      ensures news == Fresh(items, key, keys)
    {
      hide Fresh, Members, KeysOf;
      news := [];
      var batchSeen: set<K> := {};
      NoItems(items, key, keys);
      for i := 0 to |items|
        invariant news == Fresh(items[..i], key, keys)
        invariant keys + batchSeen == keys + Members(KeysOf(items[..i], key))
      {
        var k := key(items[i]);
        OneMoreItem(items, key, keys, i);
        if k in keys {
          continue;
        }
        if k in batchSeen {
          continue;
        }
        batchSeen := batchSeen + {k};
        news := news + [items[i]];
      }
      assert items[..|items|] == items;
    }

    /** Records the keys of delivered items and persists them, if it can. A valid cache stays valid; the
        rest holds of a cache loaded from any file. */
    method MarkDelivered(items: seq<T>, key: T -> K, persists: bool)
      modifies this
      ensures old(Valid()) ==> Valid()
      ensures var added := KeysOf(Fresh(items, key, old(keys)), key);
              && appended == old(appended) + added
              && order == Last(limit, old(order) + added)
              && keys == old(keys) + Members(added) - Members((old(order) + added)[..|old(order) + added| - |order|])
      ensures file == if persists then order else old(file)
    {
      hide Fresh, Spaced, NoDuplicates, Last, Members;
      ghost var was, window := appended, order;
      ghost var added := Append(items, key);
      appended := was + added;
      if old(Valid()) {
        WindowMoves(was, added, limit);
      }
      Trim();
      if persists {
        file := order;
      }
    }

    /** The loop of `MarkDelivered`: a key already cached, or appended just now, is skipped. */
    method Append(items: seq<T>, key: T -> K) returns (ghost added: seq<K>)
      modifies this
      ensures added == KeysOf(Fresh(items, key, old(keys)), key)
      ensures NoDuplicates(added) && (forall k :: k in added ==> k !in old(keys))
      ensures order == old(order) + added && keys == old(keys) + Members(added)
      ensures file == old(file) && appended == old(appended)
    {
      hide Fresh, NoDuplicates, Members, KeysOf;
      added := [];
      FreshKeys(items, key, keys);
      ghost var seen := keys;
      NoItems(items, key, seen);
      for i := 0 to |items|
        invariant added == KeysOf(Fresh(items[..i], key, seen), key)
        invariant order == old(order) + added && keys == seen + Members(added)
        invariant keys == seen + Members(KeysOf(items[..i], key))
        invariant file == old(file) && appended == old(appended)
      {
        var k := key(items[i]);
        OneMoreItem(items, key, seen, i);
        if k in keys {
          continue;
        }
        OneMoreKey(Fresh(items[..i], key, seen), key, items[i]);
        OneMoreMember(added, k);
        keys := keys + {k};
        order := order + [k];
        added := added + [k];
      }
      assert items[..|items|] == items;
    }
  }

  lemma NoItems<T, K>(items: seq<T>, key: T -> K, delivered: set<K>)
    ensures Fresh(items[..0], key, delivered) == [] && KeysOf(items[..0], key) == [] && Members<K>([]) == {}
    ensures KeysOf([], key) == []
  {
  }

  lemma OneMoreKey<T, K>(items: seq<T>, key: T -> K, item: T)
    ensures KeysOf(items + [item], key) == KeysOf(items, key) + [key(item)]
  {
  }

  lemma OneMoreMember<K>(keys: seq<K>, k: K)
    ensures Members(keys + [k]) == Members(keys) + {k}
  {
  }

  lemma OneMoreItem<T, K>(items: seq<T>, key: T -> K, delivered: set<K>, i: nat)
    requires i < |items|
    ensures var before := Fresh(items[..i], key, delivered);
            Fresh(items[..i + 1], key, delivered) ==
              if key(items[i]) in delivered || key(items[i]) in Members(KeysOf(items[..i], key)) then before
              else before + [items[i]]
    ensures Members(KeysOf(items[..i + 1], key)) == Members(KeysOf(items[..i], key)) + {key(items[i])}
  {
    assert items[..i + 1][..i] == items[..i];
    OneMoreKey(items[..i], key, items[i]);
    OneMoreMember(KeysOf(items[..i], key), key(items[i]));
    assert items[..i + 1] == items[..i] + [items[i]];
    var before := Fresh(items[..i], key, delivered);
    assert before + [] == before;
  }

  lemma MembersAfter<K>(s: seq<K>, n: nat)
    requires n <= |s| && NoDuplicates(s)
    ensures Members(s) - Members(s[..n]) == Members(s[n..]) && NoDuplicates(s[n..])
  {
    assert s == s[..n] + s[n..];
  }

  lemma NoDuplicatesInSum<K>(s: seq<K>, t: seq<K>)
    requires NoDuplicates(s) && NoDuplicates(t)
    requires forall k :: k in t ==> k !in s
    ensures NoDuplicates(s + t)
  {
    forall i, j | 0 <= i < j < |s + t|
      ensures (s + t)[i] != (s + t)[j]
    {
      if i < |s| <= j {
        assert (s + t)[j] in t;
      }
    }
  }

  lemma WindowMoves<K>(was: seq<K>, added: seq<K>, limit: nat)
    requires NoDuplicates(Last(limit, was)) && NoDuplicates(added) && Spaced(was, limit)
    requires forall k :: k in added ==> k !in Members(Last(limit, was))
    ensures var all := Last(limit, was) + added;
            var kept := Last(limit, all);
            && kept == Last(limit, was + added) && NoDuplicates(kept)
            && Members(all) == Members(Last(limit, was)) + Members(added)
            && Members(all) - Members(all[..|all| - |kept|]) == Members(kept)
    ensures Spaced(was + added, limit)
  {
    var window := Last(limit, was);
    var all := window + added;
    LastOfLast(limit, was, added);
    NoDuplicatesInSum(window, added);
    MembersAfter(all, |all| - |Last(limit, all)|);
    StaysSpaced(was, added, limit);
  }

  lemma RecentIsInLast<K>(limit: nat, s: seq<K>, i: nat)
    requires i < |s| && |s| - i <= limit
    ensures s[i] in Last(limit, s)
  {
    assert Last(limit, s)[i - (|s| - |Last(limit, s)|)] == s[i];
  }

  lemma StaysSpaced<K>(was: seq<K>, added: seq<K>, limit: nat)
    requires NoDuplicates(added) && Spaced(was, limit)
    requires forall k :: k in added ==> k !in Members(Last(limit, was))
    ensures Spaced(was + added, limit)
  {
    var all := was + added;
    forall i | 0 <= i < |was| && |was| - i <= limit
      ensures was[i] in Last(limit, was)
    {
      RecentIsInLast(limit, was, i);
    }
    forall i, j | 0 <= i < j < |all| && all[i] == all[j]
      ensures j - i > limit
    {
      if i < |was| <= j {
        assert all[j] in added;
      }
    }
  }

  /** No key among the last `limit` of the file occurs twice in it. */
  ghost predicate KeptOnce<K>(file: seq<K>, limit: nat) {
    var kept := Last(limit, file);
    NoDuplicates(kept) && forall k :: k in file[..|file| - |kept|] ==> k !in kept
  }

  /** Exactly when loading a file gives a valid cache: no key that is kept occurs twice in the file, as in a
      file that holds no key twice. */
  lemma LoadValidIff<K>(file: seq<K>, limit: nat)
    ensures var kept := Last(limit, file);
            (&& Members(file) - Members(file[..|file| - |kept|]) == Members(kept)
             && NoDuplicates(kept) && kept == Last(limit, kept) && Spaced(kept, limit))
            <==> KeptOnce(file, limit)
    ensures NoDuplicates(file) ==> KeptOnce(file, limit)
  {
    var kept := Last(limit, file);
    var dropped := file[..|file| - |kept|];
    assert file == dropped + kept;
    if k :| k in dropped && k in kept {
      assert k in Members(kept) && k !in Members(file) - Members(dropped);
    }
  }

  /** The window is exact: a key is suppressed if and only if it is among the last `limit` keys appended. */
  lemma SuppressedIff<K>(appended: seq<K>, limit: nat, k: K)
    ensures k in Members(Last(limit, appended)) <==>
            exists i :: 0 <= i < |appended| && appended[i] == k && |appended| - i <= limit
  {
    hide Last;
    var window := Last(limit, appended);
    if k in window {
      var w :| 0 <= w < |window| && window[w] == k;
      LastAre(limit, appended, w);
      assert appended[w + (|appended| - |window|)] == k;
    }
    if i :| 0 <= i < |appended| && appended[i] == k && |appended| - i <= limit {
      RecentIsInLast(limit, appended, i);
    }
  }

  /** What the filter keeps: items with distinct undelivered keys, one for every undelivered key. */
  lemma {:induction false} FreshKeys<T, K>(items: seq<T>, key: T -> K, delivered: set<K>)
    ensures var ks := KeysOf(Fresh(items, key, delivered), key);
            && NoDuplicates(ks)
            && (forall k :: k in ks ==> k !in delivered && k in KeysOf(items, key))
            && (forall k :: k in KeysOf(items, key) ==> k in delivered || k in ks)
  {
    if items != [] {
      var before, last := items[..|items| - 1], items[|items| - 1];
      FreshKeys(before, key, delivered);
      var kept := Fresh(before, key, delivered);
      assert KeysOf(items, key) == KeysOf(before, key) + [key(last)];
      if key(last) in delivered || key(last) in KeysOf(before, key) {
        assert Fresh(items, key, delivered) == kept;
      } else {
        assert KeysOf(kept + [last], key) == KeysOf(kept, key) + [key(last)];
      }
      forall k | k in KeysOf(items, key)
        ensures k in delivered || k in KeysOf(Fresh(items, key, delivered), key)
      {
        assert k in KeysOf(before, key) || k == key(last);
      }
    }
  }

  lemma AmongKeys<T, K>(items: seq<T>, key: T -> K, k: K)
    ensures k in Members(KeysOf(items, key)) <==> exists j :: 0 <= j < |items| && key(items[j]) == k
  {
    if j :| 0 <= j < |items| && key(items[j]) == k {
      assert KeysOf(items, key)[j] == k;
    }
  }

  /** The item's key was not delivered and is the first of its kind in the batch. */
  ghost predicate FirstFresh<T, K>(items: seq<T>, key: T -> K, delivered: set<K>, i: nat)
    requires i < |items|
  {
    key(items[i]) !in delivered && forall j :: 0 <= j < i ==> key(items[j]) != key(items[i])
  }

  lemma FirstFreshBefore<T, K>(items: seq<T>, key: T -> K, delivered: set<K>, n: nat)
    requires n <= |items|
    ensures forall i :: 0 <= i < n ==>
              (FirstFresh(items, key, delivered, i) <==> FirstFresh(items[..n], key, delivered, i))
  {
  }

  /** Which items the filter keeps, and in which order: `positions` is where they were. */
  lemma {:induction false} FreshAre<T, K>(items: seq<T>, key: T -> K, delivered: set<K>) returns (positions: seq<nat>)
    ensures |positions| == |Fresh(items, key, delivered)|
    ensures forall k :: 0 <= k < |positions| ==>
              positions[k] < |items| && Fresh(items, key, delivered)[k] == items[positions[k]]
    ensures forall k, l :: 0 <= k < l < |positions| ==> positions[k] < positions[l]
    ensures forall i :: 0 <= i < |items| ==> (i in positions <==> FirstFresh(items, key, delivered, i))
  {
    hide Fresh, KeysOf;
    positions := [];
    NoItems(items, key, delivered);
    if items != [] {
      var n := |items| - 1;
      positions := FreshAre(items[..n], key, delivered);
      OneMoreItem(items, key, delivered, n);
      assert items[..n + 1] == items;
      AmongKeys(items[..n], key, key(items[n]));
      FirstFreshBefore(items, key, delivered, n);
      if FirstFresh(items, key, delivered, n) {
        hide FirstFresh;
        positions := positions + [n];
      }
    } else {
      assert items[..0] == items;
    }
  }

  /** Filtering changes nothing in a batch that is already filtered. */
  lemma {:induction false} FreshOfFresh<T, K>(items: seq<T>, key: T -> K, delivered: set<K>)
    requires NoDuplicates(KeysOf(items, key))
    requires forall k :: k in KeysOf(items, key) ==> k !in delivered
    ensures Fresh(items, key, delivered) == items
  {
    hide Fresh, KeysOf;
    NoItems(items, key, delivered);
    if items == [] {
      assert items[..0] == items;
    } else {
      var n := |items| - 1;
      KeysBefore(items, key, n);
      OneMoreItem(items, key, delivered, n);
      FreshOfFresh(items[..n], key, delivered);
      assert items[..n + 1] == items == items[..n] + [items[n]];
    }
  }

  lemma KeysBefore<T, K>(items: seq<T>, key: T -> K, n: nat)
    requires |items| == n + 1 && NoDuplicates(KeysOf(items, key))
    ensures NoDuplicates(KeysOf(items[..n], key)) && key(items[n]) !in Members(KeysOf(items[..n], key))
    ensures forall k :: k in KeysOf(items[..n], key) ==> k in KeysOf(items, key)
    ensures key(items[n]) in KeysOf(items, key)
  {
    var ks := KeysOf(items, key);
    assert KeysOf(items[..n], key) == ks[..n] && ks[n] == key(items[n]) && ks[n] in ks;
  }
}
