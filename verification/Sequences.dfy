/** The end of a sequence. */
module Sequences {
  function Last<T>(n: nat, s: seq<T>): (r: seq<T>)
    ensures |r| == if |s| <= n then |s| else n
  {
    if |s| <= n then s else s[|s| - n..]
  }

  lemma LastAre<T>(n: nat, s: seq<T>, i: nat)
    requires i < |Last(n, s)|
    ensures Last(n, s)[i] == s[|s| - |Last(n, s)| + i]
  {
  }

  lemma LastOfLast<T>(n: nat, s: seq<T>, t: seq<T>)
    ensures Last(n, Last(n, s) + t) == Last(n, s + t)
  {
  }
}
