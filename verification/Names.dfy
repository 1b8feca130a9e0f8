/** Container names of one runner class: the prefix, a dash and an index. */
module Names {
  import Decimal

  predicate HasPrefix(name: string, prefix: string) {
    prefix <= name
  }

  lemma HasPrefixIff(name: string, prefix: string)
    ensures HasPrefix(name, prefix) <==> exists rest :: name == prefix + rest
  {
    if HasPrefix(name, prefix) {
      assert name == prefix + name[|prefix|..];
    }
  }

  function NameAt(prefix: string, i: nat): string {
    prefix + "-" + Decimal.ToString(i)
  }

  lemma NameAtHasPrefix(prefix: string, i: nat)
    ensures HasPrefix(NameAt(prefix, i), prefix)
  {
    assert NameAt(prefix, i) == prefix + ("-" + Decimal.ToString(i));
  }

  lemma NameAtInjective(prefix: string, i: nat, j: nat)
    requires NameAt(prefix, i) == NameAt(prefix, j)
    ensures i == j
  {
    assert NameAt(prefix, i)[|prefix| + 1..] == Decimal.ToString(i);
    assert NameAt(prefix, j)[|prefix| + 1..] == Decimal.ToString(j);
    Decimal.ToStringInjective(i, j);
  }

  /** Pigeonhole: when the names 1 to n are all taken, at least n names are. */
  lemma {:induction false} TakenNames(used: set<string>, prefix: string, n: nat)
    requires forall j :: 1 <= j <= n ==> NameAt(prefix, j) in used
    ensures n <= |used|
  {
    if n > 0 {
      var rest := used - {NameAt(prefix, n)};
      forall j | 1 <= j <= n - 1
        ensures NameAt(prefix, j) in rest
      {
        if NameAt(prefix, j) == NameAt(prefix, n) {
          NameAtInjective(prefix, j, n);
        }
      }
      TakenNames(rest, prefix, n - 1);
    }
  }

  /** The name has the least index that is not in use. */
  ghost predicate LeastFree(prefix: string, name: string, used: set<string>) {
    && name !in used
    && exists i: nat :: 1 <= i && name == NameAt(prefix, i) && forall j :: 1 <= j < i ==> NameAt(prefix, j) in used
  }

  /** The first free index is at most one past the number of names in use, so the search ends. */
  method NextName(prefix: string, existing: seq<string>) returns (name: string, index: nat)
    ensures name == prefix + "-" + Decimal.ToString(index) == NameAt(prefix, index) && name !in existing
    ensures 1 <= index <= |existing| + 1
    ensures forall j :: 1 <= j < index ==> NameAt(prefix, j) in existing
  {
    var used := {};
    for i := 0 to |existing|
      invariant forall n :: n in used <==> n in existing[..i]
      invariant |used| <= i
    {
      assert existing[..i + 1] == existing[..i] + [existing[i]];
      used := used + {existing[i]};
    }
    assert existing[..|existing|] == existing;
    index := 1;
    while NameAt(prefix, index) in used
      invariant 1 <= index
      invariant forall j :: 1 <= j < index ==> NameAt(prefix, j) in used
      decreases |existing| + 1 - index
    {
      TakenNames(used, prefix, index);
      index := index + 1;
    }
    TakenNames(used, prefix, index - 1);
    name := NameAt(prefix, index);
  }
}
