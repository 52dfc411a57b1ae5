/** Images as sequences of bytes, for qemu-img rebase and compare. */
module ImageBytes {
  import opened Alignment
  import opened Sequences

  type Byte = int

  const SECTOR_SIZE: nat := 512

  /** The byte at `x`; an image reads as zeros behind its end. */
  function At(image: seq<Byte>, x: nat): Byte { if x < |image| then image[x] else 0 }

  predicate SameOn(a: seq<Byte>, b: seq<Byte>, lo: nat, hi: nat)
    requires hi <= |a| && hi <= |b|
  {
    forall i :: lo <= i < hi ==> a[i] == b[i]
  }

  // ---- compare_buffers -------------------------------------------------

  /** The chunk of `chunk` bytes at `i`, or what is left of it, is the same. */
  predicate SameChunk(a: seq<Byte>, b: seq<Byte>, i: nat, chunk: nat)
    requires |a| == |b| && i <= |a|
  {
    SameOn(a, b, i, Min(i + chunk, |a|))
  }

  /** compare_buffers: a prefix of whole chunks that all are alike, or that all
      are different; the chunk behind it is not. */
  method CompareBuffers(a: seq<Byte>, b: seq<Byte>, chsize: nat) returns (differ: bool, pnum: nat)
    requires |a| == |b| > 0
    ensures 0 < pnum <= |a|
    ensures var c := if chsize == 0 then SECTOR_SIZE else chsize;
            && (pnum == |a| || pnum % c == 0)
            && (forall i :: 0 <= i < pnum && i % c == 0 ==> differ == !SameChunk(a, b, i, c))
            && (pnum < |a| ==> differ == SameChunk(a, b, pnum, c))
    ensures !differ ==> SameOn(a, b, 0, pnum)
  {
    var c := if chsize == 0 then SECTOR_SIZE else chsize;
    pnum := Min(|a|, c);
    differ := a[..pnum] != b[..pnum];
    SameSlices(a, b, 0, pnum);
    forall i | 0 <= i < pnum && i % c == 0 ensures i == 0 {
      if i != 0 {
        Separates(0, i, i, c);
        BlockIs(i, c, 0);
      }
    }
    assert pnum == c ==> pnum % c == 0;
    while pnum < |a|
      invariant 0 < pnum <= |a| && (pnum == |a| || pnum % c == 0)
      invariant forall i :: 0 <= i < pnum && i % c == 0 ==> differ == !SameChunk(a, b, i, c)
      invariant !differ ==> SameOn(a, b, 0, pnum)
    {
      var len := Min(|a| - pnum, c);
      SameSlices(a, b, pnum, pnum + len);
      if (a[pnum..pnum + len] != b[pnum..pnum + len]) != differ {
        break;
      }
      NoMultiple(pnum, len, c);
      ModAdd(pnum, c, c);
      pnum := pnum + len;
    }
  }

  lemma SameSlices(a: seq<Byte>, b: seq<Byte>, lo: nat, hi: nat)
    requires lo <= hi <= |a| == |b|
    ensures a[lo..hi] == b[lo..hi] <==> SameOn(a, b, lo, hi)
  {
    if a[lo..hi] == b[lo..hi] {
      forall i | lo <= i < hi ensures a[i] == b[i] {
        assert a[i] == a[lo..hi][i - lo] == b[lo..hi][i - lo] == b[i];
      }
    }
  }
}
