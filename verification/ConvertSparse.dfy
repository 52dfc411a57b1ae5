/** The search for zero runs in a buffer that is about to be written. */
module ConvertSparse {
  import opened Alignment
  import opened Sectors
  import opened Sequences

  /** `i` leading zero sectors, then a sector with data. */
  predicate ZeroRun(buf: seq<Sector>, i: nat) {
    i < |buf| && ZeroOn(buf, 0, i) && buf[i] != ZERO
  }

  /** A leading zero run that ends in the alignment block it began in. */
  ghost predicate ShortZeroRun(buf: seq<Sector>, sectorNum: nat, alignment: nat)
    requires alignment > 0
  {
    exists i: nat :: ZeroRun(buf, i) && 0 < i <= (sectorNum + i) % alignment
  }

  /** is_allocated_sectors.  The answer is not just the state of the first
      sector, as its comment has it: a short zero run counts as data. */
  method IsAllocatedSectors(buf: seq<Sector>, sectorNum: nat, alignment: nat) returns (data: bool, pnum: nat)
    requires alignment > 0
    ensures pnum <= |buf| && (pnum == 0 <==> |buf| == 0)
    ensures data <==> |buf| > 0 && (buf[0] != ZERO || ShortZeroRun(buf, sectorNum, alignment))
    ensures !data ==> ZeroOn(buf, 0, pnum)
    ensures pnum == |buf| || (sectorNum + pnum) % alignment == 0
    ensures !data && pnum < |buf| ==> exists i :: pnum <= i < pnum + alignment && ZeroRun(buf, i)
    ensures data ==> exists i :: 0 <= i < pnum <= i + alignment && buf[i] != ZERO
  {
    if |buf| == 0 {
      return false, 0;
    }
    var isZero := buf[0] == ZERO;
    var i := 1;
    while i < |buf| && isZero == (buf[i] == ZERO)
      invariant 1 <= i <= |buf|
      invariant forall j :: 0 <= j < i ==> isZero == (buf[j] == ZERO)
    {
      i := i + 1;
    }
    if i == |buf| {
      assert !isZero ==> buf[i - 1] != ZERO;
      return !isZero, i;
    }
    var run := i;
    assert isZero ==> ZeroRun(buf, run);
    var tail := (sectorNum + i) % alignment;
    assert (sectorNum + i - tail) % alignment == 0 by {
      assert AlignDown(sectorNum + i, alignment) == sectorNum + i - tail;
    }
    assert (sectorNum + i - tail + alignment) % alignment == 0 by {
      assert AlignDownNext(sectorNum + i, alignment) == sectorNum + i - tail + alignment;
    }
    if tail != 0 {
      if isZero && i <= tail {
        isZero := false;
      }
      if !isZero {
        i := i + (alignment - tail);
        i := if i < |buf| then i else |buf|;
      } else {
        i := i - tail;
      }
    }
    assert buf[0] == ZERO ==> forall j :: ZeroRun(buf, j) ==> j == run;
    assert !isZero ==> buf[run] != ZERO || buf[run - 1] != ZERO;
    return !isZero, i;
  }

  /** A buffer that begins with a zero sector and is reported as data. */
  method ZeroTakenForData() returns (buf: seq<Sector>, data: bool, pnum: nat)
    ensures |buf| == 2 && buf[0] == ZERO && data && pnum == 2
  {
    buf := [ZERO, 1];
    assert ZeroRun(buf, 1);
    data, pnum := IsAllocatedSectors(buf, 0, 2);
  }

  /** What follows a zero run that stops short of the end counts as data. */
  lemma DataFollows(buf: seq<Sector>, sectorNum: nat, alignment: nat, pnum: nat, i: nat)
    requires alignment > 0 && (sectorNum + pnum) % alignment == 0
    requires pnum <= i < pnum + alignment && ZeroRun(buf, i)
    ensures buf[pnum] != ZERO || ShortZeroRun(buf[pnum..], sectorNum + pnum, alignment)
  {
    if buf[pnum] == ZERO {
      TailShort(sectorNum + pnum, alignment, i - pnum);
      assert ZeroRun(buf[pnum..], i - pnum);
    }
  }

  /** is_allocated_sectors_min: a zero run of fewer than `min` sectors does not
      end the data. */
  method IsAllocatedSectorsMin(buf: seq<Sector>, min: nat, sectorNum: nat, alignment: nat)
    returns (data: bool, pnum: nat)
    requires alignment > 0
    ensures pnum <= |buf| && (pnum == 0 <==> |buf| == 0)
    ensures data <==> |buf| > 0 && (buf[0] != ZERO || ShortZeroRun(buf, sectorNum, alignment))
    ensures !data ==> ZeroOn(buf, 0, pnum)
    ensures data && pnum + min <= |buf| ==> ZeroOn(buf, pnum, pnum + min)
    ensures data && pnum + min > |buf| ==> ZeroOn(buf, pnum, |buf|)
    ensures pnum == |buf| || (sectorNum + pnum) % alignment == 0
    ensures data ==> exists i :: 0 <= i < pnum <= i + alignment && buf[i] != ZERO
  {
    var least := if |buf| < min then |buf| else min;
    data, pnum := IsAllocatedSectors(buf, sectorNum, alignment);
    if !data {
      return;
    }
    var used, checked := pnum, pnum;
    while checked < |buf|
      invariant 0 < used <= checked <= |buf|
      invariant checked == |buf| || (sectorNum + checked) % alignment == 0
      invariant used == |buf| || (sectorNum + used) % alignment == 0
      invariant ZeroOn(buf, used, checked)
      invariant used < checked < |buf| ==>
                  buf[checked] != ZERO || ShortZeroRun(buf[checked..], sectorNum + checked, alignment)
      invariant exists i :: 0 <= i < used <= i + alignment && buf[i] != ZERO
    {
      var more, k := IsAllocatedSectors(buf[checked..], sectorNum + checked, alignment);
      if more {
        var i :| 0 <= i < k <= i + alignment && buf[checked..][i] != ZERO;
        assert buf[checked + i] != ZERO;
        checked := checked + k;
        used := checked;
      } else {
        assert forall i :: checked <= i < checked + k ==> buf[i] == buf[checked..][i - checked];
        if k < |buf| - checked {
          var i :| k <= i < k + alignment && ZeroRun(buf[checked..], i);
          DataFollows(buf[checked..], sectorNum + checked, alignment, k, i);
          assert buf[checked..][k..] == buf[checked + k..];
        }
        checked := checked + k;
        if k >= least {
          break;
        }
      }
    }
    return true, used;
  }
}
