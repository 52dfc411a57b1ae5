/**
 * The request loop of qemu-img convert (qemu-img.c): what the next request
 * covers, and how one request is read, written or copied.
 */
module ConvertCopy {
  import opened Alignment
  import opened ConvertSparse
  import opened Options
  import opened Sectors
  import opened Sequences

  const REQUEST_MAX: nat := 4194303 // BDRV_REQUEST_MAX_SECTORS

  /** ImgConvertBlockStatus. */
  datatype Status = Data | Zero | Backing

  /** The answer of bdrv_block_status_above. */
  datatype Answer = Failed | Run(zero: bool, data: bool, count: nat)

  /**
   * The part of ImgConvertState that stays as it is during the copy.
   * `initial` is what a guest would read from the target beforehand, and
   * `targetBacking` the length of its backing file.
   */
  datatype Config = Config(
    parts: seq<seq<Sector>>,
    align: seq<nat>,
    initial: seq<Sector>,
    hasZeroInit: bool,
    hasBacking: bool,
    targetBacking: Option<nat>,
    compressed: bool,
    inOrder: bool,
    minSparse: nat,
    alignment: nat,
    cluster: nat,
    bufSectors: nat)

  function Total(cfg: Config): nat { |Concat(cfg.parts)| }

  /** What img_convert and convert_do_copy establish before they copy, and what
      is known of the target: zero if it is said to be zero-initialized, and
      zero behind the end of its backing file. */
  predicate ConfigOk(cfg: Config) {
    && |cfg.align| == |cfg.parts| && (forall k :: 0 <= k < |cfg.align| ==> cfg.align[k] > 0)
    && cfg.alignment > 0 && cfg.bufSectors > 0
    && (cfg.compressed ==> cfg.bufSectors == cfg.cluster)
    && Total(cfg) <= |cfg.initial|
    && (cfg.hasZeroInit ==> !cfg.hasBacking && ZeroOn(cfg.initial, 0, Total(cfg)))
    && (cfg.targetBacking.Some? ==> cfg.hasBacking && ZeroOn(cfg.initial, cfg.targetBacking.value, Total(cfg)))
  }

  /** The target already shows the source's sector. */
  predicate Shows(cfg: Config, i: nat)
    requires i < Total(cfg) <= |cfg.initial|
  {
    Concat(cfg.parts)[i] == cfg.initial[i]
  }

  predicate ShowsOn(cfg: Config, lo: nat, hi: nat)
    requires hi <= Total(cfg) <= |cfg.initial|
  {
    forall i :: lo <= i < hi ==> Shows(cfg, i)
  }

  /** A truthful answer about `n` sectors at `off` of part `p`: a run that has
      one status; ZERO means zeros, and no status at all, below a target with a
      backing file, means the content of that backing file. */
  predicate AnswerOk(cfg: Config, p: nat, off: nat, n: nat, a: Answer)
    requires ConfigOk(cfg) && p < |cfg.parts| && Offset(cfg.parts, p) + |cfg.parts[p]| <= Total(cfg)
  {
    a.Run? ==>
      && 0 < a.count <= n && off + a.count <= |cfg.parts[p]|
      && (a.zero ==> ZeroOn(cfg.parts[p], off, off + a.count))
      && (!a.zero && !a.data && cfg.hasBacking ==>
            ShowsOn(cfg, Offset(cfg.parts, p) + off, Offset(cfg.parts, p) + off + a.count))
  }

  ghost predicate Truthful(cfg: Config, oracle: (nat, nat, nat) -> Answer)
    requires ConfigOk(cfg)
  {
    forall p: nat, off: nat, n: nat
      {:trigger oracle(p, off, n)}
      | p < |cfg.parts| && n > 0 && Offset(cfg.parts, p) + |cfg.parts[p]| <= Total(cfg) && off < |cfg.parts[p]|
      :: AnswerOk(cfg, p, off, n, oracle(p, off, n))
  }

  /** The status is right for the sectors from `lo` to `hi`. */
  predicate StatusOk(cfg: Config, status: Status, lo: nat, hi: nat)
    requires ConfigOk(cfg)
  {
    && hi <= Total(cfg)
    && (status.Zero? ==> ZeroOn(Concat(cfg.parts), lo, hi))
    && (status.Backing? ==> cfg.hasBacking && ShowsOn(cfg, lo, hi))
  }

  /** A request at sector `at` that convert_iteration_sectors may return. */
  predicate RequestOk(cfg: Config, at: nat, n: nat, status: Status, nextStatus: nat)
    requires ConfigOk(cfg)
  {
    && 0 < n && at + n <= Total(cfg)
    && StatusOk(cfg, status, at, at + n)
    && StatusOk(cfg, status, at, nextStatus)
    && (status.Data? ==> n <= cfg.bufSectors)
  }

  /** convert_select_part. */
  method SelectPart(parts: seq<seq<Sector>>, sectorNum: nat) returns (cur: nat, offset: nat)
    requires sectorNum < |Concat(parts)|
    ensures cur < |parts| && offset == Offset(parts, cur) <= sectorNum < offset + |parts[cur]| <= |Concat(parts)|
    ensures forall i :: 0 <= i < |parts[cur]| ==> Concat(parts)[offset + i] == parts[cur][i]
  {
    cur, offset := 0, 0;
    ConcatLength(parts);
    while sectorNum - offset >= |parts[cur]|
      invariant cur < |parts| && offset == Offset(parts, cur) <= sectorNum
      decreases |parts| - cur
    {
      OffsetMonotone(parts, cur + 1, |parts|);
      offset := offset + |parts[cur]|;
      cur := cur + 1;
    }
    ConcatPart(parts, cur);
    forall i | 0 <= i < |parts[cur]| ensures Concat(parts)[offset + i] == parts[cur][i] {
      ConcatAt(parts, cur, i);
    }
  }

  /** What a write request does to the target. */
  datatype Effect = WriteData | WriteZeroes | Skip

  /** How convert_co_write may handle the first `k` sectors of `buf`. */
  predicate ChunkOk(cfg: Config, status: Status, buf: seq<Sector>, k: nat, effect: Effect) {
    && 0 < k <= |buf|
    && (status.Backing? ==> cfg.hasBacking && effect == Skip)
    && (status.Zero? ==> effect == if cfg.hasZeroInit then Skip else WriteZeroes)
    && (status.Data? ==>
          effect == WriteData || (ZeroOn(buf, 0, k) && effect == if cfg.hasZeroInit then Skip else WriteZeroes))
  }

  /** The sector at `i` after a request that covers it. */
  function Written(effect: Effect, was: Sector, buf: Sector): Sector {
    match effect
    case WriteData => buf
    case WriteZeroes => ZERO
    case Skip => was
  }

  /** The two values that a target sector has before it is finished. */
  predicate Pristine(cfg: Config, i: nat, x: Sector)
    requires i < Total(cfg) <= |cfg.initial|
  {
    x == cfg.initial[i] || x == Concat(cfg.parts)[i]
  }

  /** Whatever way the chunk is handled, the target then shows the source. */
  lemma ChunkCopies(cfg: Config, status: Status, at: nat, buf: seq<Sector>, k: nat, effect: Effect, i: nat, was: Sector)
    requires ConfigOk(cfg) && ChunkOk(cfg, status, buf, k, effect) && at + |buf| <= Total(cfg)
    requires StatusOk(cfg, status, at, at + |buf|) && i < k && Pristine(cfg, at + i, was)
    requires status.Data? ==> buf[i] == Concat(cfg.parts)[at + i]
    ensures Written(effect, was, buf[i]) == Concat(cfg.parts)[at + i]
  {
    if status.Backing? {
      assert Shows(cfg, at + i);
    }
  }

  /** One turn of the loop in convert_co_write: how far, and what to do. */
  method WriteNext(cfg: Config, status: Status, at: nat, buf: seq<Sector>) returns (k: nat, effect: Effect)
    requires ConfigOk(cfg) && buf != [] && (status.Backing? ==> cfg.hasBacking)
    ensures ChunkOk(cfg, status, buf, k, effect)
    ensures cfg.compressed ==> k == |buf|
    ensures status.Data? ==>
              (effect.WriteData? <==>
                 || cfg.minSparse == 0
                 || (if cfg.compressed then !ZeroOn(buf, 0, |buf|)
                     else buf[0] != ZERO || ShortZeroRun(buf, at, cfg.alignment)))
  {
    k := |buf|;
    if status.Backing? {
      return k, Skip;
    }
    if status.Data? {
      if cfg.minSparse == 0 {
        return k, WriteData;
      }
      var data: bool;
      if cfg.compressed {
        data := exists i :: 0 <= i < |buf| && buf[i] != ZERO;
      } else {
        data, k := IsAllocatedSectorsMin(buf, cfg.minSparse, at, cfg.alignment);
      }
      if data {
        return k, WriteData;
      }
    }
    return k, if cfg.hasZeroInit then Skip else WriteZeroes;
  }

  /** Compressed images are written in whole clusters. */
  method WholeClusters(n: nat, cluster: nat, left: nat) returns (m: nat)
    requires 0 < n <= left && cluster > 0
    ensures 0 < m <= left && (m == left || m % cluster == 0)
    ensures if n < cluster then m == Min(cluster, left) else n - cluster < m <= n
  {
    if n < cluster {
      BlockIs(cluster, cluster, 1);
      return Min(cluster, left);
    } else {
      return AlignDown(n, cluster);
    }
  }

  /** The status cache and the target of a conversion. */
  class ConvertState {
    const cfg: Config
    const target: array<Sector>
    var status: Status
    var nextStatus: nat

    ghost predicate Valid()
      reads this, target
    {
      && ConfigOk(cfg) && target.Length == |cfg.initial|
      && forall i :: 0 <= i < Total(cfg) ==> Pristine(cfg, i, target[i])
    }

    constructor (cfg: Config, target: array<Sector>)
      requires ConfigOk(cfg) && target[..] == cfg.initial
      ensures Valid() && this.cfg == cfg && this.target == target && nextStatus == 0 && StatusOk(cfg, status, 0, nextStatus)
    {
      this.cfg, this.target, status, nextStatus := cfg, target, Data, 0;
      new;
      assert forall i :: 0 <= i < target.Length ==> target[i] == cfg.initial[i];
    }

    /** The status query of convert_iteration_sectors. */
    method QueryStatus(at: nat, want: nat, behindBacking: bool, oracle: (nat, nat, nat) -> Answer, salvage: bool)
      returns (ok: bool, n: nat)
      requires ConfigOk(cfg) && Truthful(cfg, oracle) && at < Total(cfg) && want > 0
      requires behindBacking ==> cfg.targetBacking.Some? && cfg.targetBacking.value <= at
      modifies this`status, this`nextStatus
      ensures ok ==> 0 < n <= want && nextStatus == at + n && StatusOk(cfg, status, at, nextStatus)
      ensures ok ==> Answered(cfg, oracle, at, want, n, status, behindBacking, salvage)
      ensures ok <==> !Refused(cfg, oracle, at, want, salvage)
      ensures !ok ==> status == old(status) && nextStatus == old(nextStatus)
    {
      var cur, off := SelectPart(cfg.parts, at);
      n := want;
      var answer := oracle(cur, at - off, n);
      while answer.Failed?
        invariant n > 0 && (answer.Failed? ==> answer == oracle(cur, at - off, n))
        invariant Ask(oracle, cur, at - off, want, salvage) ==
                  if answer.Failed? then Ask(oracle, cur, at - off, n, salvage) else answer
        decreases n, answer.Failed?
      {
        if !salvage {
          assert RefusedIn(cfg, oracle, cur, at, want, salvage);
          return false, want;
        }
        if n == 1 {
          answer := Run(false, true, 1);
        } else {
          n := (n + 3) / 4;
          answer := oracle(cur, at - off, n);
        }
      }
      AskIsTruthful(cfg, oracle, cur, at - off, want, salvage);
      NotRefused(cfg, oracle, cur, at, want, salvage);
      n := answer.count;
      AnswerMeans(cfg, cur, at - off, answer, behindBacking);
      var tail := (at - off + n) % cfg.align[cur];
      if n > tail {
        n := n - tail;
      }
      status := StatusOf(cfg, answer, behindBacking);
      nextStatus := at + n;
      assert AnsweredIn(cfg, oracle, cur, at, want, n, status, behindBacking, salvage);
      return true, n;
    }

    /** convert_iteration_sectors. */
    method IterationSectors(at: nat, oracle: (nat, nat, nat) -> Answer, salvage: bool) returns (ok: bool, n: nat)
      requires ConfigOk(cfg) && Truthful(cfg, oracle) && at < Total(cfg)
      requires StatusOk(cfg, status, at, nextStatus)
      modifies this`status, this`nextStatus
      ensures ok ==> RequestOk(cfg, at, n, status, nextStatus)
      ensures ok && cfg.compressed ==> at + n == Total(cfg) || n % cfg.cluster == 0
      ensures ok && !cfg.compressed ==>
                if old(nextStatus) > at then status == old(status) && nextStatus == old(nextStatus)
                else Answered(cfg, oracle, at, Limit(cfg, at), nextStatus - at, status, BehindBacking(cfg, at), salvage)
      ensures ok && !cfg.compressed ==>
                at + n == nextStatus || n == Limit(cfg, at) || (status.Data? && n == cfg.bufSectors)
      ensures ok <==> old(nextStatus) > at || !Refused(cfg, oracle, at, Limit(cfg, at), salvage)
      ensures !ok ==> status == old(status) && nextStatus == old(nextStatus)
    {
      n := Min(Total(cfg) - at, REQUEST_MAX);
      var behindBacking := false;
      if cfg.targetBacking.Some? {
        if at >= cfg.targetBacking.value {
          behindBacking := true;
        } else if at + n > cfg.targetBacking.value {
          n := cfg.targetBacking.value - at;
        }
      }
      assert n == Limit(cfg, at) && behindBacking == BehindBacking(cfg, at);
      if nextStatus <= at {
        ok, n := QueryStatus(at, n, behindBacking, oracle, salvage);
        if !ok {
          return;
        }
      }
      n := Min(n, nextStatus - at);
      if status.Data? {
        n := Min(n, cfg.bufSectors);
      }
      if cfg.compressed {
        var short := n < cfg.cluster;
        n := WholeClusters(n, cfg.cluster, Total(cfg) - at);
        if short {
          status := Data;
        }
      }
      return true, n;
    }

    /** The first pass of convert_do_copy: it goes through all requests once to
        count the sectors to be written, and leaves an empty status cache. */
    method CountAllocated(oracle: (nat, nat, nat) -> Answer, salvage: bool)
      returns (ok: bool, count: nat, ghost requests: seq<Request>)
      requires ConfigOk(cfg) && Truthful(cfg, oracle) && StatusOk(cfg, status, 0, nextStatus)
      modifies this`status, this`nextStatus
      ensures ok ==> nextStatus == 0 && StatusOk(cfg, status, 0, 0)
      ensures ok ==> Covers(cfg, requests, Total(cfg)) && count == Allocated(cfg, requests) <= Total(cfg)
      ensures ok && cfg.minSparse == 0 && !cfg.hasBacking ==> count == Total(cfg)
      ensures salvage ==> ok
    {
      var at := 0;
      count, requests := 0, [];
      while at < Total(cfg)
        invariant at <= Total(cfg) && StatusOk(cfg, status, at, nextStatus)
        invariant Covers(cfg, requests, at) && count == Allocated(cfg, requests)
        invariant count <= at && (cfg.minSparse == 0 && !cfg.hasBacking ==> count == at)
      {
        var n;
        ok, n := IterationSectors(at, oracle, salvage);
        if !ok {
          return;
        }
        if status.Data? || (cfg.minSparse == 0 && status.Zero?) {
          count := count + n;
        }
        requests := requests + [Request(at, n, status)];
        at := at + n;
      }
      nextStatus := 0;
      ok := true;
    }

    /** convert_co_read: the requested sectors of the concatenation, gathered from
        as many sources as they span.  When salvaging, a failing request is
        repeated sector by sector, and what cannot be read becomes zeros. */
    method CoRead(sectorNum: nat, nb: nat, buf: array<Sector>, readOk: (nat, nat, nat) -> bool, salvage: bool)
      returns (ok: bool)
      requires sectorNum + nb <= Total(cfg) && nb <= buf.Length
      modifies buf
      ensures ok ==> forall i :: 0 <= i < nb ==> ReadAs(cfg, readOk, salvage, sectorNum + i, buf[i])
      ensures ok && !salvage ==> buf[..nb] == Concat(cfg.parts)[sectorNum..sectorNum + nb]
      ensures buf[nb..] == old(buf[nb..])
      ensures salvage || (forall p: nat, off: nat, n: nat :: readOk(p, off, n)) ==> ok
    {
      var done, singleUntil := 0, 0;
      ghost var retry, part := false, 0;
      while done < nb
        invariant done <= nb
        invariant forall i :: 0 <= i < done ==> ReadAs(cfg, readOk, salvage, sectorNum + i, buf[i])
        invariant forall i :: nb <= i < buf.Length ==> buf[i] == old(buf[i])
        invariant retry ==> PartHolds(cfg.parts, part, sectorNum + done) && singleUntil > sectorNum + done - Offset(cfg.parts, part)
        decreases nb - done, !retry
      {
        var cur, off := SelectPart(cfg.parts, sectorNum + done);
        var at := sectorNum + done - off;
        if retry {
          OnePart(cfg.parts, cur, part, sectorNum + done);
        }
        var n := Min(nb - done, |cfg.parts[cur]| - at);
        if singleUntil > at {
          n := 1;
        }
        var good := readOk(cur, at, n);
        if !good && !salvage {
          return false;
        }
        if !good && n > 1 {
          singleUntil, retry, part := at + n, true, cur;
        } else {
          Receive(sectorNum, buf, done, n, cur, good, readOk, salvage);
          done, retry := done + n, false;
        }
      }
      return true;
    }

    /** A request for `n` sectors of part `cur` has been read, or one for a single
        sector is given up. */
    method Receive(sectorNum: nat, buf: array<Sector>, done: nat, n: nat, cur: nat, good: bool,
                   readOk: (nat, nat, nat) -> bool, salvage: bool)
      requires cur < |cfg.parts| && Offset(cfg.parts, cur) <= sectorNum + done
      requires sectorNum + done + n <= Offset(cfg.parts, cur) + |cfg.parts[cur]| <= Total(cfg) && done + n <= buf.Length
      requires !good ==> salvage && n == 1 && !readOk(cur, sectorNum + done - Offset(cfg.parts, cur), 1)
      modifies buf
      ensures forall i :: done <= i < done + n ==> ReadAs(cfg, readOk, salvage, sectorNum + i, buf[i])
      ensures forall i :: 0 <= i < buf.Length && !(done <= i < done + n) ==> buf[i] == old(buf[i])
    {
      var off := Offset(cfg.parts, cur);
      forall i | done <= i < done + n {
        buf[i] := if good then cfg.parts[cur][sectorNum + i - off] else ZERO;
      }
      forall i | done <= i < done + n ensures ReadAs(cfg, readOk, salvage, sectorNum + i, buf[i]) {
        ConcatAt(cfg.parts, cur, sectorNum + i - off);
        assert good || Unreadable(cfg, readOk, cur, sectorNum + i);
      }
    }

    /** convert_co_write.  A request that fails leaves `torn` behind. */
    method CoWrite(sectorNum: nat, buf: seq<Sector>, status: Status, writeOk: nat -> bool, torn: nat -> Sector)
      returns (ok: bool)
      requires Valid() && sectorNum + |buf| <= Total(cfg)
      requires StatusOk(cfg, status, sectorNum, sectorNum + |buf|)
      requires status.Data? ==> buf == Concat(cfg.parts)[sectorNum..sectorNum + |buf|]
      modifies target
      ensures ok ==> Valid() && target[sectorNum..sectorNum + |buf|] == Concat(cfg.parts)[sectorNum..sectorNum + |buf|]
      ensures (forall x: nat :: writeOk(x)) ==> ok
      ensures forall i :: 0 <= i < target.Length && !(sectorNum <= i < sectorNum + |buf|) ==> target[i] == old(target[i])
    {
      var done := 0;
      while done < |buf|
        invariant done <= |buf|
        invariant forall i :: sectorNum <= i < sectorNum + done ==> target[i] == Concat(cfg.parts)[i]
        invariant forall i :: 0 <= i < target.Length && !(sectorNum <= i < sectorNum + done) ==> target[i] == old(target[i])
      {
        var at, rest := sectorNum + done, buf[done..];
        var k, effect := WriteNext(cfg, status, at, rest);
        if !effect.Skip? && !writeOk(at) {
          forall i | at <= i < at + k {
            target[i] := torn(i);
          }
          return false;
        }
        forall i | 0 <= i < k ensures Written(effect, target[at + i], rest[i]) == Concat(cfg.parts)[at + i] {
          ChunkCopies(cfg, status, at, rest, k, effect, i, target[at + i]);
        }
        forall i | at <= i < at + k {
          target[i] := Written(effect, target[i], rest[i - at]);
        }
        assert forall i :: at <= i < at + k ==> target[i] == Concat(cfg.parts)[at + (i - at)];
        done := done + k;
      }
      return true;
    }

    /** convert_co_copy_range.  A request that fails may have `copied` some of
        its sectors; the caller then starts over with reads and writes. */
    method CoCopyRange(sectorNum: nat, nb: nat, copyOk: nat -> bool, copied: nat -> bool) returns (ok: bool)
      requires Valid() && sectorNum + nb <= Total(cfg)
      modifies target
      ensures Valid()
      ensures ok ==> target[sectorNum..sectorNum + nb] == Concat(cfg.parts)[sectorNum..sectorNum + nb]
      ensures (forall x: nat :: copyOk(x)) ==> ok
      ensures forall i :: 0 <= i < target.Length && !(sectorNum <= i < sectorNum + nb) ==> target[i] == old(target[i])
    {
      var done := 0;
      while done < nb
        invariant done <= nb
        invariant forall i :: sectorNum <= i < sectorNum + done ==> target[i] == Concat(cfg.parts)[i]
        invariant forall i :: 0 <= i < target.Length && !(sectorNum <= i < sectorNum + done) ==> target[i] == old(target[i])
      {
        var cur, off := SelectPart(cfg.parts, sectorNum + done);
        var n := Min(nb - done, |cfg.parts[cur]| - (sectorNum + done - off));
        var at, good := sectorNum + done, copyOk(sectorNum + done);
        forall i | at <= i < at + n {
          target[i] := if good || copied(i) then cfg.parts[cur][i - off] else target[i];
        }
        assert forall i :: at <= i < at + n ==>
            target[i] == if good || copied(i) then Concat(cfg.parts)[off + (i - off)] else old(target[i]);
        if !good {
          return false;
        }
        done := done + n;
      }
      return true;
    }
  }

  predicate BehindBacking(cfg: Config, at: nat) { cfg.targetBacking.Some? && at >= cfg.targetBacking.value }

  /** How far a request may go: it does not straddle the end of the target's
      backing file. */
  function Limit(cfg: Config, at: nat): nat
    requires at <= Total(cfg)
  {
    var n := Min(Total(cfg) - at, REQUEST_MAX);
    if cfg.targetBacking.Some? && at < cfg.targetBacking.value < at + n then cfg.targetBacking.value - at else n
  }

  /** What is known about sectors from `off` of part `p`.  When salvaging, a
      failing query is repeated for a quarter of the sectors, and a single one
      is taken for data. */
  function Ask(oracle: (nat, nat, nat) -> Answer, p: nat, off: nat, n: nat, salvage: bool): Answer {
    var a := oracle(p, off, n);
    if a.Run? || !salvage then a
    else if n <= 1 then Run(false, true, 1)
    else Ask(oracle, p, off, (n + 3) / 4, salvage)
  }

  lemma {:induction false} AskIsTruthful(cfg: Config, oracle: (nat, nat, nat) -> Answer, p: nat, off: nat, n: nat,
                                         salvage: bool)
    requires ConfigOk(cfg) && Truthful(cfg, oracle) && n > 0
    requires p < |cfg.parts| && Offset(cfg.parts, p) + |cfg.parts[p]| <= Total(cfg) && off < |cfg.parts[p]|
    ensures AnswerOk(cfg, p, off, n, Ask(oracle, p, off, n, salvage))
    decreases n
  {
    assert AnswerOk(cfg, p, off, n, oracle(p, off, n));
    if oracle(p, off, n).Failed? && salvage && n > 1 {
      AskIsTruthful(cfg, oracle, p, off, (n + 3) / 4, salvage);
    }
  }

  /** The cached status is the one that was answered for part `p`; the run may
      have been cut at the source's alignment. */
  predicate AnsweredIn(cfg: Config, oracle: (nat, nat, nat) -> Answer, p: nat, at: nat, want: nat, n: int,
                       status: Status, behindBacking: bool, salvage: bool)
  {
    && p < |cfg.align| && PartHolds(cfg.parts, p, at)
    && var answer := Ask(oracle, p, at - Offset(cfg.parts, p), want, salvage);
       && answer.Run? && status == StatusOf(cfg, answer, behindBacking)
       && (n == answer.count ||
           (cfg.align[p] > 0 && n == answer.count - (at - Offset(cfg.parts, p) + answer.count) % cfg.align[p]))
  }

  ghost predicate Answered(cfg: Config, oracle: (nat, nat, nat) -> Answer, at: nat, want: nat, n: int,
                           status: Status, behindBacking: bool, salvage: bool)
  {
    exists p: nat :: AnsweredIn(cfg, oracle, p, at, want, n, status, behindBacking, salvage)
  }

  /** The query failed, and failures are not put up with. */
  predicate RefusedIn(cfg: Config, oracle: (nat, nat, nat) -> Answer, p: nat, at: nat, want: nat, salvage: bool) {
    !salvage && PartHolds(cfg.parts, p, at) && oracle(p, at - Offset(cfg.parts, p), want).Failed?
  }

  ghost predicate Refused(cfg: Config, oracle: (nat, nat, nat) -> Answer, at: nat, want: nat, salvage: bool) {
    exists p: nat :: RefusedIn(cfg, oracle, p, at, want, salvage)
  }

  lemma NotRefused(cfg: Config, oracle: (nat, nat, nat) -> Answer, p: nat, at: nat, want: nat, salvage: bool)
    requires PartHolds(cfg.parts, p, at) && Ask(oracle, p, at - Offset(cfg.parts, p), want, salvage).Run?
    ensures !Refused(cfg, oracle, at, want, salvage)
  {
    forall q: nat ensures !RefusedIn(cfg, oracle, q, at, want, salvage) {
      if PartHolds(cfg.parts, q, at) {
        OnePart(cfg.parts, p, q, at);
      }
    }
  }

  /** A request of the first pass. */
  datatype Request = Request(at: nat, n: nat, status: Status)

  /** The requests follow one another from 0 to `end`, and each has the right
      status. */
  predicate Covers(cfg: Config, requests: seq<Request>, end: nat)
    requires ConfigOk(cfg)
    decreases |requests|
  {
    if requests == [] then end == 0
    else
      var last := requests[|requests| - 1];
      && last.at + last.n == end && 0 < last.n && StatusOk(cfg, last.status, last.at, end)
      && Covers(cfg, requests[..|requests| - 1], last.at)
  }

  /** The sectors that will be written. */
  function Allocated(cfg: Config, requests: seq<Request>): nat {
    if requests == [] then 0
    else
      var last := requests[|requests| - 1];
      Allocated(cfg, requests[..|requests| - 1]) +
        if last.status.Data? || (cfg.minSparse == 0 && last.status.Zero?) then last.n else 0
  }

  /** Not even this sector alone can be read. */
  predicate Unreadable(cfg: Config, readOk: (nat, nat, nat) -> bool, p: nat, x: nat) {
    PartHolds(cfg.parts, p, x) && !readOk(p, x - Offset(cfg.parts, p), 1)
  }

  /** What is read for sector `x` of the concatenation. */
  ghost predicate ReadAs(cfg: Config, readOk: (nat, nat, nat) -> bool, salvage: bool, x: nat, v: Sector)
    requires x < Total(cfg)
  {
    v == Concat(cfg.parts)[x] || (salvage && v == ZERO && exists p: nat :: Unreadable(cfg, readOk, p, x))
  }

  function StatusOf(cfg: Config, a: Answer, behindBacking: bool): Status
    requires a.Run?
  {
    if a.zero then if behindBacking then Backing else Zero
    else if a.data then Data
    else if cfg.hasBacking then Backing else Data
  }

  lemma AnswerMeans(cfg: Config, p: nat, off: nat, a: Answer, behindBacking: bool)
    requires ConfigOk(cfg) && p < |cfg.parts| && a.Run? && Offset(cfg.parts, p) + |cfg.parts[p]| <= Total(cfg)
    requires AnswerOk(cfg, p, off, a.count, a)
    requires behindBacking ==> cfg.targetBacking.Some? && cfg.targetBacking.value <= Offset(cfg.parts, p) + off
    ensures var at := Offset(cfg.parts, p) + off; StatusOk(cfg, StatusOf(cfg, a, behindBacking), at, at + a.count)
  {
    var at := Offset(cfg.parts, p) + off;
    forall i | at <= i < at + a.count && a.zero ensures Concat(cfg.parts)[i] == ZERO {
      ConcatAt(cfg.parts, p, off + (i - at));
    }
  }
}
