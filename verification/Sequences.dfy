/** What the models of several files say about sequences. */
module Sequences {
  function Min(a: int, b: int): int { if a < b then a else b }

  predicate ZeroOn(s: seq<int>, lo: nat, hi: nat)
    requires hi <= |s|
  {
    forall i :: lo <= i < hi ==> s[i] == 0
  }

  predicate NoDup<T(==)>(list: seq<T>) {
    forall i, j :: 0 <= i < j < |list| ==> list[i] != list[j]
  }
}
