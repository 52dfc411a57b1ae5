/** Images as qemu-img convert sees them: sequences of sectors. */
module Sectors {
  /** The 512 bytes of a sector, read as one number. */
  type Sector = int

  const ZERO: Sector := 0

  /** Several source images, one after the other. */
  function Concat(parts: seq<seq<Sector>>): seq<Sector> {
    if parts == [] then [] else parts[0] + Concat(parts[1..])
  }

  /** Where part `k` starts in the concatenation. */
  function Offset(parts: seq<seq<Sector>>, k: nat): nat
    requires k <= |parts|
  {
    if k == 0 then 0 else Offset(parts, k - 1) + |parts[k - 1]|
  }

  /** Sector `x` of the concatenation is in part `k`. */
  predicate PartHolds(parts: seq<seq<Sector>>, k: nat, x: nat) {
    k < |parts| && Offset(parts, k) <= x < Offset(parts, k) + |parts[k]|
  }

  lemma OffsetTail(parts: seq<seq<Sector>>, k: nat)
    requires 0 < k <= |parts|
    ensures Offset(parts, k) == |parts[0]| + Offset(parts[1..], k - 1)
  {
    if k > 1 {
      OffsetTail(parts, k - 1);
      assert parts[1..][k - 2] == parts[k - 1];
    }
  }

  lemma {:induction false} ConcatLength(parts: seq<seq<Sector>>)
    ensures |Concat(parts)| == Offset(parts, |parts|)
  {
    if parts != [] {
      ConcatLength(parts[1..]);
      OffsetTail(parts, |parts|);
    }
  }

  /** A part can be found in the concatenation, at its offset. */
  lemma {:induction false} ConcatPart(parts: seq<seq<Sector>>, k: nat)
    requires k < |parts|
    ensures Offset(parts, k) + |parts[k]| <= |Concat(parts)|
    ensures Concat(parts)[Offset(parts, k)..Offset(parts, k) + |parts[k]|] == parts[k]
  {
    var rest := Concat(parts[1..]);
    if k > 0 {
      ConcatPart(parts[1..], k - 1);
      OffsetTail(parts, k);
      var lo := Offset(parts[1..], k - 1);
      assert rest[lo..lo + |parts[k]|] == Concat(parts)[|parts[0]| + lo..|parts[0]| + lo + |parts[k]|];
    }
  }

  lemma ConcatAt(parts: seq<seq<Sector>>, k: nat, i: nat)
    requires k < |parts| && i < |parts[k]|
    ensures Offset(parts, k) + i < |Concat(parts)| && Concat(parts)[Offset(parts, k) + i] == parts[k][i]
  {
    ConcatPart(parts, k);
    assert Concat(parts)[Offset(parts, k)..Offset(parts, k) + |parts[k]|][i] == parts[k][i];
  }

  lemma {:induction false} OffsetMonotone(parts: seq<seq<Sector>>, j: nat, k: nat)
    requires j <= k <= |parts|
    ensures Offset(parts, j) <= Offset(parts, k)
  {
    if j < k {
      OffsetMonotone(parts, j, k - 1);
    }
  }

  /** A sector is in one part only. */
  lemma OnePart(parts: seq<seq<Sector>>, j: nat, k: nat, x: nat)
    requires PartHolds(parts, j, x) && PartHolds(parts, k, x)
    ensures j == k
  {
    if j < k {
      OffsetMonotone(parts, j + 1, k);
    } else if k < j {
      OffsetMonotone(parts, k + 1, j);
    }
  }
}
