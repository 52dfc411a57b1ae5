/** qemu-img compare (qemu-img.c). */
module Compare {
  import opened Alignment
  import opened ImageBytes
  import opened Options
  import opened Sequences

  /** The flags of bdrv_block_status_above over the whole chain. */
  datatype Status = Status(used: bool, zero: bool, others: int)

  datatype Answer = Failed | Run(status: Status, n: nat)

  type Oracle = (nat, nat) -> Answer

  /** A run of the status found: what is ZERO, or not allocated anywhere in the
      chain, reads as zeros. */
  predicate AnswerOk(image: seq<Byte>, offset: nat, n: nat, answer: Answer) {
    answer.Run? && offset + n <= |image| ==>
      && 0 < answer.n <= n
      && (answer.status.zero || !answer.status.used ==> ZeroOn(image, offset, offset + answer.n))
  }

  ghost predicate Truthful(image: seq<Byte>, oracle: Oracle) {
    forall offset: nat, n: nat :: n > 0 ==> AnswerOk(image, offset, n, oracle(offset, n))
  }

  /** The exit codes 0, 1, 3 and 4.  A content mismatch is reported with its
      offset. */
  datatype Outcome = Identical | SizeMismatch | StatusMismatch(offset: nat) | ContentMismatch(offset: nat)
                   | StatusError | ReadError

  /** Equal when the shorter image is padded with zeros. */
  ghost predicate PaddedEqual(a: seq<Byte>, b: seq<Byte>) { forall x: nat :: At(a, x) == At(b, x) }

  predicate EqualBelow(a: seq<Byte>, b: seq<Byte>, n: nat) {
    forall x: nat :: x < n ==> At(a, x) == At(b, x)
  }

  /** The images agree up to `m`, and differ in the sector that begins there. */
  ghost predicate FirstMismatch(a: seq<Byte>, b: seq<Byte>, m: nat) {
    EqualBelow(a, b, m) && exists x: nat :: m <= x < m + SECTOR_SIZE && At(a, x) != At(b, x)
  }

  /** find_nonzero: the first sector with a byte that is not zero. */
  method FindNonzero(buf: seq<Byte>) returns (r: Option<nat>)
    ensures r.None? <==> ZeroOn(buf, 0, |buf|)
    ensures r.Some? ==> r.value < |buf| && r.value % SECTOR_SIZE == 0 && ZeroOn(buf, 0, r.value)
    ensures r.Some? ==> !ZeroOn(buf, r.value, Min(r.value + SECTOR_SIZE, |buf|))
  {
    var i, end := 0, AlignDown(|buf|, SECTOR_SIZE);
    while i < end
      invariant 0 <= i <= end && i % SECTOR_SIZE == 0 && ZeroOn(buf, 0, i)
    {
      if !ZeroOn(buf, i, i + SECTOR_SIZE) {
        return Some(i);
      }
      i := i + SECTOR_SIZE;
    }
    if i < |buf| && !ZeroOn(buf, i, |buf|) {
      return Some(i);
    }
    return None;
  }

  /** check_empty_sectors, for a part of `image` where the other image has
      nothing or is already over. */
  method CheckEmptySectors(image: seq<Byte>, other: seq<Byte>, offset: nat, n: nat, readOk: nat -> bool)
    returns (r: Option<Outcome>)
    requires 0 < n && offset + n <= |image| && EqualBelow(image, other, offset)
    requires forall x :: offset <= x < offset + n ==> At(other, x) == 0
    ensures r.None? ==> EqualBelow(image, other, offset + n)
    ensures r.Some? ==> r.value == ReadError || (r.value.ContentMismatch? && FirstMismatch(image, other, r.value.offset))
    ensures readOk(offset) ==> r != Some(ReadError)
  {
    if !readOk(offset) {
      return Some(ReadError);
    }
    var part := image[offset..offset + n];
    var at := FindNonzero(part);
    if at.None? {
      forall x: nat | x < offset + n ensures At(image, x) == At(other, x) {
        assert offset <= x ==> part[x - offset] == image[x];
      }
      return None;
    }
    var m := offset + at.value;
    forall x: nat | x < m ensures At(image, x) == At(other, x) {
      assert offset <= x ==> part[x - offset] == image[x];
    }
    var i :| at.value <= i < Min(at.value + SECTOR_SIZE, |part|) && part[i] != 0;
    assert At(image, offset + i) != At(other, offset + i);
    return Some(ContentMismatch(m));
  }

  const IO_BUF_SIZE: nat := 2097152

  lemma Mirrored(a: seq<Byte>, b: seq<Byte>, m: nat)
    ensures EqualBelow(a, b, m) <==> EqualBelow(b, a, m)
    ensures FirstMismatch(a, b, m) <==> FirstMismatch(b, a, m)
  {
  }

  /** Both images have data: read and compare it. */
  method CompareData(a: seq<Byte>, b: seq<Byte>, offset: nat, n: nat, readOk: nat -> bool) returns (r: Option<Outcome>)
    requires 0 < n && offset + n <= |a| && offset + n <= |b| && EqualBelow(a, b, offset)
    ensures r.None? ==> EqualBelow(a, b, offset + n)
    ensures r.Some? ==> r.value == ReadError || (r.value.ContentMismatch? && FirstMismatch(a, b, r.value.offset))
    ensures readOk(offset) ==> r != Some(ReadError)
  {
    if !readOk(offset) {
      return Some(ReadError);
    }
    var differ, pnum := CompareBuffers(a[offset..offset + n], b[offset..offset + n], 0);
    if !differ {
      Agreed(a, b, offset, n, pnum);
      if pnum == n {
        return None;
      }
    }
    var k := if differ then 0 else pnum;
    Differs(a, b, offset, n, k);
    return Some(ContentMismatch(offset + k));
  }

  lemma Agreed(a: seq<Byte>, b: seq<Byte>, offset: nat, n: nat, k: nat)
    requires k <= n && offset + n <= |a| && offset + n <= |b| && EqualBelow(a, b, offset)
    requires SameOn(a[offset..offset + n], b[offset..offset + n], 0, k)
    ensures EqualBelow(a, b, offset + k)
  {
    forall x: nat | x < offset + k ensures At(a, x) == At(b, x) {
      assert x >= offset ==> a[offset..offset + n][x - offset] == b[offset..offset + n][x - offset];
    }
  }

  lemma Differs(a: seq<Byte>, b: seq<Byte>, offset: nat, n: nat, k: nat)
    requires k < n && offset + n <= |a| && offset + n <= |b| && EqualBelow(a, b, offset + k)
    requires !SameChunk(a[offset..offset + n], b[offset..offset + n], k, SECTOR_SIZE)
    ensures FirstMismatch(a, b, offset + k)
  {
    var i :| k <= i < Min(k + SECTOR_SIZE, n) && a[offset..offset + n][i] != b[offset..offset + n][i];
    assert At(a, offset + i) != At(b, offset + i);
  }

  /** One turn of the main loop, after both statuses are known. */
  method CompareRun(a: seq<Byte>, b: seq<Byte>, offset: nat, chunk: nat, s1: Status, s2: Status, readOk: nat -> bool)
    returns (r: Option<Outcome>, n: nat)
    requires 0 < chunk && offset + chunk <= |a| && offset + chunk <= |b| && EqualBelow(a, b, offset)
    requires s1.zero || !s1.used ==> ZeroOn(a, offset, offset + chunk)
    requires s2.zero || !s2.used ==> ZeroOn(b, offset, offset + chunk)
    ensures 0 < n <= chunk
    ensures r.None? ==> EqualBelow(a, b, offset + n)
    ensures r.Some? ==> r.value == ReadError || (r.value.ContentMismatch? && FirstMismatch(a, b, r.value.offset))
    ensures readOk(offset) ==> r != Some(ReadError)
  {
    n := chunk;
    if (s1.zero && s2.zero) || (!s1.used && !s2.used) {
      return None, n;
    }
    n := Min(chunk, IO_BUF_SIZE);
    if s1.used && s2.used {
      r := CompareData(a, b, offset, n, readOk);
    } else if s1.used {
      r := CheckEmptySectors(a, b, offset, n, readOk);
    } else {
      Mirrored(a, b, offset);
      r := CheckEmptySectors(b, a, offset, n, readOk);
      Mirrored(a, b, offset + n);
      if r.Some? && r.value.ContentMismatch? {
        Mirrored(a, b, r.value.offset);
      }
    }
  }

  /** The part of the larger image behind the end of the smaller one. */
  method CompareTail(a: seq<Byte>, b: seq<Byte>, status: Oracle, readOk: nat -> bool) returns (r: Option<Outcome>)
    requires |a| > |b| && Truthful(a, status) && EqualBelow(a, b, |b|)
    ensures r.None? ==> EqualBelow(a, b, |a|)
    ensures r.Some? ==> r.value == ReadError || r.value == StatusError ||
                        (r.value.ContentMismatch? && FirstMismatch(a, b, r.value.offset))
    ensures NoErrors(status, readOk) ==> r != Some(ReadError) && r != Some(StatusError)
  {
    var offset := |b|;
    while offset < |a|
      invariant |b| <= offset <= |a| && EqualBelow(a, b, offset)
    {
      var answer := status(offset, |a| - offset);
      if answer.Failed? {
        return Some(StatusError);
      }
      assert AnswerOk(a, offset, |a| - offset, answer);
      var chunk := answer.n;
      if answer.status.used && !answer.status.zero {
        chunk := Min(chunk, IO_BUF_SIZE);
        r := CheckEmptySectors(a, b, offset, chunk, readOk);
        if r.Some? {
          return;
        }
      }
      offset := offset + chunk;
    }
    return None;
  }

  ghost predicate NoErrors(status: Oracle, readOk: nat -> bool) {
    (forall offset: nat, n: nat :: status(offset, n).Run?) && forall offset: nat :: readOk(offset)
  }

  /** The loop over the part that both images have. */
  method CompareCommon(a: seq<Byte>, b: seq<Byte>, strict: bool, status1: Oracle, status2: Oracle, readOk: nat -> bool)
    returns (r: Option<Outcome>)
    requires Truthful(a, status1) && Truthful(b, status2)
    ensures r.None? ==> EqualBelow(a, b, Min(|a|, |b|))
    ensures r.Some? ==>
              match r.value
              case StatusMismatch(x) => strict && x < |a| && x < |b| && EqualBelow(a, b, x) && StatusesDiffer(a, b, status1, status2, x)
              case ContentMismatch(x) => FirstMismatch(a, b, x)
              case o => o == ReadError || o == StatusError
    ensures NoErrors(status1, readOk) && NoErrors(status2, readOk) ==> r != Some(ReadError) && r != Some(StatusError)
  {
    var offset, size := 0, Min(|a|, |b|);
    while offset < size
      invariant 0 <= offset <= size && EqualBelow(a, b, offset)
    {
      var a1, a2 := status1(offset, |a| - offset), status2(offset, |b| - offset);
      if a1.Failed? || a2.Failed? {
        return Some(StatusError);
      }
      assert AnswerOk(a, offset, |a| - offset, a1) && AnswerOk(b, offset, |b| - offset, a2);
      if strict && a1.status != a2.status {
        return Some(StatusMismatch(offset));
      }
      var n;
      r, n := CompareRun(a, b, offset, Min(a1.n, a2.n), a1.status, a2.status, readOk);
      if r.Some? {
        return;
      }
      offset := offset + n;
    }
    return None;
  }

  predicate StatusesDiffer(a: seq<Byte>, b: seq<Byte>, status1: Oracle, status2: Oracle, x: nat)
    requires x < |a| && x < |b|
  {
    var a1, a2 := status1(x, |a| - x), status2(x, |b| - x);
    a1.Run? && a2.Run? && a1.status != a2.status
  }

  /** img_compare. */
  method CompareImages(a: seq<Byte>, b: seq<Byte>, strict: bool, status1: Oracle, status2: Oracle, readOk: nat -> bool)
    returns (r: Outcome)
    requires Truthful(a, status1) && Truthful(b, status2)
    ensures !strict && NoErrors(status1, readOk) && NoErrors(status2, readOk) ==>
              if PaddedEqual(a, b) then r == Identical else r.ContentMismatch?
    ensures r == Identical ==> PaddedEqual(a, b) && (strict ==> a == b)
    ensures r == SizeMismatch <==> strict && |a| != |b|
    ensures r.ContentMismatch? ==> FirstMismatch(a, b, r.offset)
    ensures r.StatusMismatch? ==>
              strict && r.offset < |a| && r.offset < |b| && StatusesDiffer(a, b, status1, status2, r.offset)
  {
    if strict && |a| != |b| {
      return SizeMismatch;
    }
    var common := CompareCommon(a, b, strict, status1, status2, readOk);
    if common.Some? {
      return common.value;
    }
    var tail: Option<Outcome> := None;
    if |a| > |b| {
      tail := CompareTail(a, b, status1, readOk);
    } else if |b| > |a| {
      Mirrored(a, b, |a|);
      tail := CompareTail(b, a, status2, readOk);
      Mirrored(a, b, |b|);
    }
    if tail.Some? {
      if tail.value.ContentMismatch? {
        Mirrored(a, b, tail.value.offset);
      }
      return tail.value;
    }
    assert |a| == |b| ==> forall x :: 0 <= x < |a| ==> a[x] == At(a, x) == At(b, x) == b[x];
    return Identical;
  }
}
