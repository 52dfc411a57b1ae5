/**
 * qemu-img rebase (qemu-img.c): an overlay gets another backing file, and what
 * a guest reads from it stays the same.
 */
module Rebase {
  import opened Alignment
  import opened ImageBytes
  import opened Sequences

  /** A byte of the overlay. */
  datatype Cell = Unallocated | Allocated(byte: Byte)

  function Visible(c: Cell, backing: seq<Byte>, x: nat): Byte {
    if c.Allocated? then c.byte else At(backing, x)
  }

  /** Clusters are allocated as a whole. */
  predicate Uniform(overlay: seq<Cell>, align: nat)
    requires align > 0
  {
    forall x, y :: 0 <= x < |overlay| && 0 <= y < |overlay| && x / align == y / align ==>
      overlay[x].Allocated? == overlay[y].Allocated?
  }

  predicate UnallocatedOn(overlay: seq<Cell>, lo: nat, hi: nat)
    requires hi <= |overlay|
  {
    forall x :: lo <= x < hi ==> overlay[x].Unallocated?
  }

  /** The byte that a chain of images shows, topmost image first.  A short image
      hides the ones below it. */
  function Through(chain: seq<seq<Cell>>, x: nat): Byte {
    if chain == [] || x >= |chain[0]| then 0
    else if chain[0][x].Allocated? then chain[0][x].byte
    else Through(chain[1..], x)
  }

  /** The new backing file, when it is an image of the old backing chain. */
  datatype Prefix = NoPrefix | Prefix(chain: seq<seq<Cell>>, base: nat)

  ghost predicate PrefixOk(was: seq<Byte>, now: seq<Byte>, p: Prefix) {
    p.Prefix? ==>
      && p.base < |p.chain|
      && forall x: nat :: At(was, x) == Through(p.chain, x) && At(now, x) == Through(p.chain[p.base..], x)
  }

  /** bdrv_is_allocated: the state of a run, of any length that is right. */
  method IsAllocated(layer: seq<Cell>, offset: nat, n: nat) returns (used: bool, pnum: nat)
    requires 0 < n
    ensures pnum <= n && (pnum == 0 <==> offset >= |layer|) && (pnum > 0 ==> offset + pnum <= |layer|)
    ensures forall x :: offset <= x < offset + pnum ==> layer[x].Allocated? == used
  {
    if offset >= |layer| {
      return false, 0;
    }
    used := layer[offset].Allocated?;
    var most := 1;
    while most < n && offset + most < |layer| && layer[offset + most].Allocated? == used
      invariant 0 < most <= n && offset + most <= |layer|
      invariant forall x :: offset <= x < offset + most ==> layer[x].Allocated? == used
    {
      most := most + 1;
    }
    pnum :| 0 < pnum <= most;
  }

  /** The images of a chain above `k` leave the byte to the ones below. */
  predicate Defers(chain: seq<seq<Cell>>, k: nat, x: nat)
    requires k <= |chain|
  {
    forall j :: 0 <= j < k ==> x < |chain[j]| && chain[j][x].Unallocated?
  }

  predicate DefersOn(chain: seq<seq<Cell>>, k: nat, lo: nat, hi: nat)
    requires k <= |chain|
  {
    forall x :: lo <= x < hi ==> Defers(chain, k, x)
  }

  lemma DefersNext(chain: seq<seq<Cell>>, k: nat, lo: nat, hi: nat)
    requires k < |chain| && DefersOn(chain, k, lo, hi) && hi <= |chain[k]| && UnallocatedOn(chain[k], lo, hi)
    ensures DefersOn(chain, k + 1, lo, hi)
  {
    var next := k + 1;
    forall x: nat | lo <= x < hi ensures Defers(chain, next, x) {
      assert Defers(chain, k, x);
    }
  }

  lemma {:induction false} DefersThrough(chain: seq<seq<Cell>>, k: nat, x: nat)
    requires k <= |chain| && Defers(chain, k, x)
    ensures Through(chain, x) == Through(chain[k..], x)
  {
    if k > 0 {
      assert chain[0][x].Unallocated?;
      forall j | 0 <= j < k - 1 ensures x < |chain[1..][j]| && chain[1..][j][x].Unallocated? {
        assert chain[1..][j] == chain[j + 1];
      }
      DefersThrough(chain[1..], k - 1, x);
      assert chain[1..][k - 1..] == chain[k..];
    }
  }

  /** bdrv_is_allocated_above, base excluded: a run that no image above the base
      has changed reads the same through the whole chain and from the base on.
      Only behind the end of the topmost image the run is empty. */
  method IsAllocatedAbove(chain: seq<seq<Cell>>, base: nat, offset: nat, n: nat) returns (changed: bool, pnum: nat)
    requires base < |chain| && 0 < n
    ensures pnum <= n && (pnum == 0 <==> base > 0 && offset >= |chain[0]|)
    ensures !changed && pnum > 0 ==>
              forall x :: offset <= x < offset + pnum ==> Through(chain, x) == Through(chain[base..], x)
  {
    changed, pnum := false, n;
    var k := 0;
    while k < base
      invariant 0 <= k <= base && 0 < pnum <= n
      invariant k > 0 ==> offset < |chain[0]|
      invariant DefersOn(chain, k, offset, offset + pnum)
    {
      var used, run := IsAllocated(chain[k], offset, pnum);
      if run == 0 {
        if k == 0 {
          return false, 0;
        }
        return true, pnum;
      }
      pnum := run;
      if used {
        return true, pnum;
      }
      DefersNext(chain, k, offset, offset + pnum);
      k := k + 1;
    }
    forall x | offset <= x < offset + pnum ensures Through(chain, x) == Through(chain[base..], x) {
      DefersThrough(chain, base, x);
    }
  }

  /** A run that begins in an unallocated cluster, extended to whole clusters. */
  lemma WholeClusters(overlay: seq<Cell>, align: nat, offset: nat, n: nat, lo: nat, hi: nat)
    requires align > 0 && Uniform(overlay, align) && 0 < n && offset + n <= |overlay|
    requires UnallocatedOn(overlay, offset, offset + n)
    requires lo == AlignDown(offset, align) && hi == Min(AlignUp(offset + n, align), |overlay|)
    ensures UnallocatedOn(overlay, lo, hi)
  {
    forall x | lo <= x < hi ensures overlay[x].Unallocated? {
      if x < offset {
        SameBlock(offset, x, align);
        assert overlay[x].Allocated? == overlay[offset].Allocated?;
      } else if x >= offset + n {
        LastInBlock(offset + n, align);
        SameBlock(offset + n, x, align);
        assert overlay[x].Allocated? == overlay[offset + n - 1].Allocated?;
      }
    }
  }

  lemma LastInBlock(x: nat, align: nat)
    requires align > 0 && x > 0 && x % align != 0
    ensures (x - 1) / align == x / align
  {
    SameBlock(x, x - 1, align);
  }

  /** Allocating whole clusters keeps clusters whole. */
  lemma StaysUniform(before: seq<Cell>, after: seq<Cell>, align: nat, lo: nat, hi: nat)
    requires align > 0 && Uniform(before, align) && |after| == |before| && lo <= hi <= |before|
    requires lo % align == 0 && (hi % align == 0 || hi == |before|)
    requires forall x :: 0 <= x < |before| && !(lo <= x < hi) ==> after[x] == before[x]
    requires forall x :: lo <= x < hi ==> after[x].Allocated?
    ensures Uniform(after, align)
  {
    forall x, y | 0 <= x < |before| && 0 <= y < |before| && x / align == y / align
      ensures after[x].Allocated? == after[y].Allocated? {
      SameSide(x, y, lo, hi, |before|, align);
    }
  }

  lemma SameSide(x: nat, y: nat, lo: nat, hi: nat, size: nat, align: nat)
    requires align > 0 && lo % align == 0 && (hi % align == 0 || hi == size)
    requires x < size && y < size && x / align == y / align
    ensures lo <= x < hi <==> lo <= y < hi
  {
    if x < lo <= y {
      Separates(x, lo, y, align);
    } else if y < lo <= x {
      Separates(y, lo, x, align);
    } else if x < hi <= y {
      Separates(x, hi, y, align);
    } else if y < hi <= x {
      Separates(y, hi, x, align);
    }
  }

  /** The bytes of an image from `offset` on. */
  predicate IsPart(buf: seq<Byte>, image: seq<Byte>, offset: nat) {
    forall i :: 0 <= i < |buf| ==> buf[i] == At(image, offset + i)
  }

  /** The two backing files differ in the cluster that holds `x`. */
  ghost predicate ClusterDiffers(was: seq<Byte>, now: seq<Byte>, align: nat, size: nat, x: nat)
    requires align > 0
  {
    exists y: nat :: y < size && y / align == x / align && At(was, y) != At(now, y)
  }

  lemma ChunkDiffers(was: seq<Byte>, now: seq<Byte>, align: nat, size: nat, pos: nat, bufOld: seq<Byte>, bufNew: seq<Byte>,
                     pnum: nat, x: nat)
    requires align > 0 && pos % align == 0 && |bufOld| == |bufNew| && pos + |bufOld| <= size && pnum <= |bufOld|
    requires IsPart(bufOld, was, pos) && IsPart(bufNew, now, pos) && pos <= x < pos + pnum
    requires forall i :: 0 <= i < pnum && i % align == 0 ==> !SameChunk(bufOld, bufNew, i, align)
    ensures ClusterDiffers(was, now, align, size, x)
  {
    var i := ChunkStart(pos, x, align);
    assert !SameChunk(bufOld, bufNew, i, align);
    var k :| i <= k < Min(i + align, |bufOld|) && bufOld[k] != bufNew[k];
    SameBlock(x, pos + k, align);
    assert At(was, pos + k) != At(now, pos + k);
  }

  /** Where the chunk of `x` starts, counted from an aligned position. */
  lemma ChunkStart(pos: nat, x: nat, align: nat) returns (i: nat)
    requires align > 0 && pos % align == 0 && pos <= x
    ensures i % align == 0 && pos + i == AlignDown(x, align)
  {
    var b := AlignDown(x, align);
    NotBefore(pos, x, align);
    ModSub(b, pos, align);
    i := b - pos;
  }

  lemma NotBefore(pos: nat, x: nat, align: nat)
    requires align > 0 && pos % align == 0 && pos <= x
    ensures pos <= AlignDown(x, align)
  {
    assert pos == align * (pos / align);
    assert align * (x / align - pos / align) == align * (x / align) - pos;
    MulStep(align, x / align - pos / align);
  }

  /** Reading a backing file that may be shorter than the overlay. */
  method ReadPadded(backing: seq<Byte>, offset: nat, n: nat, readOk: nat -> bool) returns (ok: bool, buf: seq<Byte>)
    ensures ok ==> |buf| == n && IsPart(buf, backing, offset)
    ensures ok <==> n == 0 || offset >= |backing| || readOk(offset)
  {
    var have := if offset < |backing| then Min(n, |backing| - offset) else 0;
    if have > 0 && !readOk(offset) {
      return false, [];
    }
    var data := if have > 0 then backing[offset..offset + have] else [];
    return true, data + seq(n - have, _ => 0);
  }

  /** Every request succeeds. */
  ghost predicate NeverFails(requestOk: nat -> bool) { forall x: nat :: requestOk(x) }

  /** An overlay and its backing file. */
  class Image {
    const overlay: array<Cell>
    const align: nat
    var backing: seq<Byte>

    constructor (cells: array<Cell>, align: nat, backing: seq<Byte>)
      ensures overlay == cells && this.align == align && this.backing == backing
    {
      this.overlay := cells;
      this.align := align;
      this.backing := backing;
    }

    ghost predicate Valid()
      reads this, overlay
    {
      align > 0 && Uniform(overlay[..], align)
    }

    /** What a guest reads when `b` is the backing file. */
    ghost function ContentsOver(b: seq<Byte>): seq<Byte>
      reads this, overlay
    {
      seq(overlay.Length, x requires 0 <= x < overlay.Length reads this, overlay => Visible(overlay[x], b, x))
    }

    ghost function Contents(): seq<Byte>
      reads this, overlay
    {
      ContentsOver(backing)
    }

    /** A range that reads the same with `now` for a backing file. */
    ghost predicate Shows(now: seq<Byte>, lo: nat, hi: nat)
      requires hi <= overlay.Length
      reads this, overlay
    {
      forall x :: lo <= x < hi ==> Visible(overlay[x], now, x) == Contents()[x]
    }

    /** In a range, only clusters in which the backing files differ are allocated. */
    ghost predicate OnlyNeeded(now: seq<Byte>, lo: nat, hi: nat)
      requires align > 0 && hi <= overlay.Length
      reads this, overlay
    {
      forall x :: lo <= x < hi && overlay[x].Allocated? ==> ClusterDiffers(backing, now, align, overlay.Length, x)
    }

    /** blk_pwrite and blk_pwrite_zeroes: byte by byte, so that the invariant
        speaks about a request that was cut short, too. */
    method Write(offset: nat, data: seq<Byte>, writeOk: nat -> bool) returns (ok: bool)
      requires offset + |data| <= overlay.Length
      requires UnallocatedOn(overlay[..], offset, offset + |data|) && IsPart(data, backing, offset)
      modifies overlay
      ensures Contents() == old(Contents())
      ensures forall x :: 0 <= x < overlay.Length && !(offset <= x < offset + |data|) ==> overlay[x] == old(overlay[x])
      ensures ok ==> forall x :: offset <= x < offset + |data| ==> overlay[x].Allocated?
      ensures ok <==> forall x :: offset <= x < offset + |data| ==> writeOk(x)
    {
      var i := 0;
      while i < |data|
        invariant 0 <= i <= |data|
        invariant Contents() == old(Contents())
        invariant forall x :: 0 <= x < overlay.Length && !(offset <= x < offset + i) ==> overlay[x] == old(overlay[x])
        invariant forall x :: offset <= x < offset + i ==> overlay[x].Allocated? && writeOk(x)
      {
        if !writeOk(offset + i) {
          return false;
        }
        ghost var before := Contents();
        overlay[offset + i] := Allocated(data[i]);
        assert Contents() == before;
        i := i + 1;
      }
      return true;
    }

    /** The inner loop: where the two backing files differ, the old content goes
        into the overlay. */
    method CopyDifferences(lo: nat, n: nat, bufOld: seq<Byte>, bufNew: seq<Byte>, now: seq<Byte>, writeOk: nat -> bool)
      returns (ok: bool)
      requires Valid() && lo + n <= overlay.Length && UnallocatedOn(overlay[..], lo, lo + n)
      requires lo % align == 0 && ((lo + n) % align == 0 || lo + n == overlay.Length)
      requires |bufOld| == |bufNew| == n && IsPart(bufOld, backing, lo) && IsPart(bufNew, now, lo)
      modifies overlay
      ensures Contents() == old(Contents())
      ensures forall x :: 0 <= x < overlay.Length && !(lo <= x < lo + n) ==> overlay[x] == old(overlay[x])
      ensures ok ==> Valid() && Shows(now, lo, lo + n)
      ensures NeverFails(writeOk) ==> ok
      ensures OnlyNeeded(now, lo, lo + n)
    {
      var written, eof := 0, lo >= |backing|;
      while written < n
        invariant 0 <= written <= n && (written < n ==> (lo + written) % align == 0)
        invariant Valid() && Contents() == old(Contents()) && (eof ==> lo + written >= |backing|)
        invariant forall x :: 0 <= x < overlay.Length && !(lo <= x < lo + written) ==> overlay[x] == old(overlay[x])
        invariant Shows(now, lo, lo + written) && OnlyNeeded(now, lo, lo + written)
      {
        PartTail(bufOld, backing, lo, written);
        PartTail(bufNew, now, lo, written);
        var pnum;
        ok, pnum := CopyChunk(lo + written, bufOld[written..], bufNew[written..], now, eof, writeOk);
        if !ok {
          return;
        }
        written := written + pnum;
        if lo + written >= |backing| {
          eof := true;
        }
      }
      return true;
    }

    /** The next chunks, as long as they all differ or all agree. */
    method CopyChunk(pos: nat, bufOld: seq<Byte>, bufNew: seq<Byte>, now: seq<Byte>, eof: bool, writeOk: nat -> bool)
      returns (ok: bool, pnum: nat)
      requires Valid() && |bufOld| == |bufNew| > 0 && pos + |bufOld| <= overlay.Length
      requires UnallocatedOn(overlay[..], pos, pos + |bufOld|) && pos % align == 0
      requires (pos + |bufOld|) % align == 0 || pos + |bufOld| == overlay.Length
      requires IsPart(bufOld, backing, pos) && IsPart(bufNew, now, pos) && (eof ==> pos >= |backing|)
      modifies overlay
      ensures 0 < pnum <= |bufOld| && (pnum == |bufOld| || (pos + pnum) % align == 0)
      ensures Contents() == old(Contents())
      ensures forall x :: 0 <= x < overlay.Length && !(pos <= x < pos + pnum) ==> overlay[x] == old(overlay[x])
      ensures ok ==> Valid() && Shows(now, pos, pos + pnum)
      ensures NeverFails(writeOk) ==> ok
      ensures OnlyNeeded(now, pos, pos + pnum)
    {
      var differ;
      differ, pnum := CompareBuffers(bufOld, bufNew, align);
      EndAligned(pos, pnum, |bufOld|, align);
      if differ {
        forall x | pos <= x < pos + pnum ensures ClusterDiffers(backing, now, align, overlay.Length, x) {
          ChunkDiffers(backing, now, align, overlay.Length, pos, bufOld, bufNew, pnum, x);
        }
        ok := WriteChunk(pos, if eof then seq(pnum, _ => 0) else bufOld[..pnum], writeOk);
      } else {
        ok := true;
        forall x | pos <= x < pos + pnum ensures Visible(overlay[x], now, x) == Contents()[x] {
          assert bufOld[x - pos] == At(backing, pos + (x - pos)) && bufNew[x - pos] == At(now, pos + (x - pos));
        }
      }
    }

    /** One request for whole clusters. */
    method WriteChunk(offset: nat, data: seq<Byte>, writeOk: nat -> bool) returns (ok: bool)
      requires Valid() && offset + |data| <= overlay.Length && offset % align == 0
      requires (offset + |data|) % align == 0 || offset + |data| == overlay.Length
      requires UnallocatedOn(overlay[..], offset, offset + |data|) && IsPart(data, backing, offset)
      modifies overlay
      ensures Contents() == old(Contents())
      ensures forall x :: 0 <= x < overlay.Length && !(offset <= x < offset + |data|) ==> overlay[x] == old(overlay[x])
      ensures ok ==> Valid() && forall x :: offset <= x < offset + |data| ==> overlay[x] == Allocated(Contents()[x])
      ensures ok <==> forall x :: offset <= x < offset + |data| ==> writeOk(x)
    {
      ok := Write(offset, data, writeOk);
      if ok {
        StaysUniform(old(overlay[..]), overlay[..], align, offset, offset + |data|);
      }
    }

    /** One region of clusters that are not in the overlay. */
    method CopyRegion(lo: nat, hi: nat, now: seq<Byte>, readOk: nat -> bool, writeOk: nat -> bool) returns (ok: bool)
      requires Valid() && lo <= hi <= overlay.Length && UnallocatedOn(overlay[..], lo, hi)
      requires lo % align == 0 && (hi % align == 0 || hi == overlay.Length)
      modifies overlay
      ensures Contents() == old(Contents())
      ensures forall x :: 0 <= x < overlay.Length && !(lo <= x < hi) ==> overlay[x] == old(overlay[x])
      ensures ok ==> Valid() && Shows(now, lo, hi)
      ensures NeverFails(readOk) && NeverFails(writeOk) ==> ok
      ensures OnlyNeeded(now, lo, hi)
    {
      var bufOld, bufNew;
      ok, bufOld := ReadPadded(backing, lo, hi - lo, readOk);
      if !ok {
        return;
      }
      ok, bufNew := ReadPadded(now, lo, hi - lo, readOk);
      if !ok {
        return;
      }
      ok := CopyDifferences(lo, hi - lo, bufOld, bufNew, now, writeOk);
    }

    /** The loop of a safe rebase.  Whenever it stops, the image reads as before;
        when it gets to the end, it reads as before over `now`, too. */
    method CopyBeforeRebase(now: seq<Byte>, prefix: Prefix,
                            statusOk: nat -> bool, readOk: nat -> bool, writeOk: nat -> bool) returns (ok: bool)
      requires Valid() && PrefixOk(backing, now, prefix)
      modifies overlay
      ensures Contents() == old(Contents())
      ensures forall x :: 0 <= x < overlay.Length ==>
                if old(overlay[x].Allocated?) then overlay[x] == old(overlay[x])
                else overlay[x].Allocated? ==> ClusterDiffers(backing, now, align, overlay.Length, x)
      ensures ok ==> Valid() && ContentsOver(now) == old(Contents())
      ensures NeverFails(statusOk) && NeverFails(readOk) && NeverFails(writeOk) ==> ok
    {
      var offset, size := 0, overlay.Length;
      while offset < size
        invariant 0 <= offset <= size && Valid() && Contents() == old(Contents()) && Shows(now, 0, offset)
        invariant forall x :: 0 <= x < overlay.Length ==>
                    if old(overlay[x].Allocated?) then overlay[x] == old(overlay[x])
                    else overlay[x].Allocated? ==> ClusterDiffers(backing, now, align, overlay.Length, x)
      {
        if !statusOk(offset) {
          return false;
        }
        var used, n := IsAllocated(overlay[..], offset, size - offset);
        if used {
          offset := offset + n;
          continue;
        }
        if prefix.Prefix? {
          if !statusOk(offset) {
            return false;
          }
          var changed, run := IsAllocatedAbove(prefix.chain, prefix.base, offset, n);
          if !changed && run > 0 {
            offset := offset + run;
            continue;
          }
          if run > 0 {
            n := run;
          }
        }
        var lo, hi := AlignDown(offset, align), Min(AlignUp(offset + n, align), size);
        WholeClusters(overlay[..], align, offset, n, lo, hi);
        ok := CopyRegion(lo, hi, now, readOk, writeOk);
        if !ok {
          return;
        }
        offset := hi;
      }
      return true;
    }

    /** A safe rebase: the guest sees no difference, whether it succeeds or not.
        `changeOk` says whether the header could be rewritten. */
    method SafeRebase(now: seq<Byte>, prefix: Prefix, statusOk: nat -> bool,
                      readOk: nat -> bool, writeOk: nat -> bool, changeOk: bool) returns (ok: bool)
      requires Valid() && PrefixOk(backing, now, prefix)
      modifies this`backing, overlay
      ensures Contents() == old(Contents())
      ensures backing == if ok then now else old(backing)
      ensures !changeOk ==> !ok
      ensures NeverFails(statusOk) && NeverFails(readOk) && NeverFails(writeOk) && changeOk ==> ok
    {
      ok := CopyBeforeRebase(now, prefix, statusOk, readOk, writeOk);
      ok := ok && changeOk;
      if ok {
        backing := now;
      }
    }
  }

  lemma EndAligned(pos: nat, pnum: nat, left: nat, align: nat)
    requires align > 0 && pos % align == 0 && (pnum == left || pnum % align == 0)
    ensures pnum == left || (pos + pnum) % align == 0
  {
    if pnum % align == 0 {
      ModAdd(pos, pnum, align);
    }
  }

  lemma PartTail(buf: seq<Byte>, image: seq<Byte>, lo: nat, k: nat)
    requires IsPart(buf, image, lo) && k <= |buf|
    ensures IsPart(buf[k..], image, lo + k)
  {
    forall i | 0 <= i < |buf| - k ensures buf[k..][i] == At(image, lo + k + i) {
      assert buf[k + i] == At(image, lo + (k + i));
    }
  }
}
