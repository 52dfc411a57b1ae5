/**
 * The coroutines of qemu-img convert (convert_co_do_copy).  Every coroutine
 * claims the next piece of the source under a lock, then reads and writes it
 * while the others run; a step is what one coroutine does between two points
 * where another one may take over.
 */
module ConvertRun {
  import opened ConvertCopy
  import opened Options
  import opened Sectors
  import opened Sequences

  /** s->ret: -EINPROGRESS, 0 or a negative errno. */
  datatype Ret = InProgress | Success | Error

  datatype Pc =
    | Idle           // created, not entered yet
    | Top            // about to take the lock
    | Locked         // has the lock
    | Planning       // in convert_iteration_sectors, with the lock
    | Retry          // has claimed a piece
    | Reading
    | Ordering       // tests whether it is its turn to write
    | Waiting        // has yielded until its turn
    | Ready          // may write
    | Copying(pos: nat)
    | Writing(pos: nat)
    | Finishing      // has written, wakes the next one
    | Leaving
    | Done

  /** A coroutine with its local variables: the piece claimed, its status, and
      whether it is copied without a buffer. */
  datatype Co = Co(pc: Pc, at: nat, n: nat, status: Status, copy: bool, buf: seq<Sector>)

  /** `n` sectors that one coroutine took on, from `at`. */
  datatype Claim = Claim(at: nat, n: nat)

  /** The fields of ImgConvertState that change; `claims` is a history. */
  datatype Shared = Shared(
    target: seq<Sector>, sectorNum: nat, status: Status, nextStatus: nat, wrOffs: nat, copyRange: bool,
    ret: Ret, lock: Option<nat>, running: nat, claims: seq<Claim>)

  datatype State = State(sh: Shared, cos: seq<Co>)

  datatype Step =
    | Start
    | Lock
    | Check
    | PlanFail
    | Plan(n: nat, status: Status, next: nat)
    | Choose
    | Read
    | ReadFail(junk: seq<Sector>)
    | Order
    | Decide
    | CopyChunk(k: nat)
    | CopyFail(k: nat, copied: seq<bool>)
    | WriteChunk(k: nat, effect: Effect)
    | WriteFail(k: nat, torn: seq<Sector>)
    | Finish
    | Leave

  predicate Active(co: Co) {
    co.pc.Retry? || co.pc.Reading? || co.pc.Ordering? || co.pc.Waiting? || co.pc.Ready? ||
    co.pc.Copying? || co.pc.Writing? || co.pc.Finishing?
  }

  function End(co: Co): nat { co.at + co.n }

  predicate Owns(co: Co, x: nat) { Active(co) && co.at <= x < End(co) }

  /** The target with the sectors from `lo` on replaced by `new`. */
  function Patch(s: seq<Sector>, lo: nat, data: seq<Sector>): (r: seq<Sector>)
    requires lo + |data| <= |s|
    ensures |r| == |s|
    ensures forall x :: 0 <= x < |s| ==> r[x] == if lo <= x < lo + |data| then data[x - lo] else s[x]
  {
    s[..lo] + data + s[lo + |data|..]
  }

  /** A copy request that failed: some sectors were copied, the others not. */
  function PartlyCopied(was: seq<Sector>, source: seq<Sector>, copied: seq<bool>): seq<Sector>
    requires |was| == |source| == |copied|
  {
    seq(|was|, i requires 0 <= i < |was| => if copied[i] then source[i] else was[i])
  }

  /** What the request leaves in sectors `pos` to `pos + k`, when their place
      in the buffer is `off`. */
  function WrittenChunk(effect: Effect, target: seq<Sector>, pos: nat, buf: seq<Sector>, off: nat,
                        k: nat): (r: seq<Sector>)
    requires pos + k <= |target| && off + k <= |buf|
    ensures |r| == k
  {
    seq(k, i requires 0 <= i < k => Written(effect, target[pos + i], buf[off + i]))
  }

  /** A request is over that wrote `data` to the next part of the piece. */
  function Wrote(sh: Shared, co: Co, data: seq<Sector>): (Shared, Co)
    requires co.pc.Copying? || co.pc.Writing?
    requires co.pc.pos + |data| <= |sh.target|
  {
    var pos := co.pc.pos + |data|;
    (sh.(target := Patch(sh.target, co.pc.pos, data)),
     co.(pc := if pos == End(co) then Finishing else if co.pc.Copying? then Copying(pos) else Writing(pos)))
  }

  predicate CanCopy(cfg: Config, sh: Shared, co: Co, k: nat) {
    co.pc.Copying? && co.at <= co.pc.pos && 0 < k && co.pc.pos + k <= End(co) <= Total(cfg) <= |sh.target|
  }

  predicate CanWrite(cfg: Config, sh: Shared, co: Co, k: nat) {
    && co.pc.Writing? && co.at <= co.pc.pos && 0 < k && co.pc.pos + k <= End(co) <= Total(cfg) <= |sh.target|
    && |co.buf| == co.n
  }

  /** The coroutine `co` can take the step. */
  predicate Enabled(cfg: Config, sh: Shared, co: Co, step: Step)
    requires ConfigOk(cfg)
  {
    match step
    case Start => co.pc.Idle?
    case Lock => co.pc.Top? && sh.lock.None?
    case Check => co.pc.Locked?
    case PlanFail => co.pc.Planning?
    case Plan(n, status, next) => co.pc.Planning? && RequestOk(cfg, sh.sectorNum, n, status, next)
    case Choose => co.pc.Retry?
    case Read => co.pc.Reading? && End(co) <= Total(cfg)
    case ReadFail(junk) => co.pc.Reading? && |junk| == co.n
    case Order => co.pc.Ordering?
    case Decide => co.pc.Ready?
    case CopyChunk(k) => CanCopy(cfg, sh, co, k)
    case CopyFail(k, copied) => CanCopy(cfg, sh, co, k) && |copied| == k
    case WriteChunk(k, effect) =>
      CanWrite(cfg, sh, co, k) && ChunkOk(cfg, co.status, co.buf[co.pc.pos - co.at..], k, effect)
    case WriteFail(k, torn) => CanWrite(cfg, sh, co, k) && |torn| == k
    case Finish => co.pc.Finishing?
    case Leave => co.pc.Leaving? && sh.running > 0
  }

  /** Sectors `pos` to `pos + k` as the source has them. */
  function SourceAt(cfg: Config, pos: nat, k: nat): seq<Sector>
    requires pos + k <= Total(cfg)
  {
    Concat(cfg.parts)[pos..pos + k]
  }

  function NextSectors(cfg: Config, n: nat, status: Status): nat {
    if cfg.minSparse == 0 && status.Zero? then Min(n, cfg.bufSectors) else n
  }

  function Chosen(cfg: Config, sh: Shared, co: Co): Co {
    var copy := sh.copyRange && sh.status.Data?;
    if co.status.Data? && !copy then co.(pc := Reading, copy := copy)
    else if cfg.minSparse == 0 && co.status.Zero? then
      co.(pc := Ordering, copy := copy, status := Data, buf := seq(co.n, _ => ZERO))
    else co.(pc := Ordering, copy := copy, buf := seq(co.n, _ => ZERO))
  }

  /** What the step does to the shared fields and to the coroutine itself. */
  function Apply(cfg: Config, sh: Shared, co: Co, step: Step): (r: (Shared, Co))
    requires ConfigOk(cfg) && Enabled(cfg, sh, co, step)
  {
    match step
    case Start => (sh.(running := sh.running + 1), co.(pc := Top))
    case Lock => (sh, co.(pc := Locked))
    case Check =>
      if !sh.ret.InProgress? || sh.sectorNum >= Total(cfg)
      then (sh.(lock := None), co.(pc := Leaving))
      else (sh, co.(pc := Planning))
    case PlanFail => (sh.(lock := None, ret := Error), co.(pc := Leaving))
    case Plan(n, status, next) =>
      var m := NextSectors(cfg, n, status);
      (sh.(lock := None, status := status, nextStatus := next, sectorNum := sh.sectorNum + m,
           claims := sh.claims + [Claim(sh.sectorNum, m)]),
       Co(Retry, sh.sectorNum, m, status, false, []))
    case Choose => (sh, Chosen(cfg, sh, co))
    case Read => (sh, co.(pc := Ordering, buf := SourceAt(cfg, co.at, co.n)))
    case ReadFail(junk) => (sh.(ret := Error), co.(pc := Ordering, buf := junk))
    case Order =>
      if cfg.inOrder && sh.wrOffs != co.at && sh.ret.InProgress?
      then (sh, co.(pc := Waiting))
      else (sh, co.(pc := Ready))
    case Decide =>
      if !sh.ret.InProgress? then (sh, co.(pc := Finishing))
      else (sh, co.(pc := if co.copy then Copying(co.at) else Writing(co.at)))
    case CopyChunk(k) => Wrote(sh, co, SourceAt(cfg, co.pc.pos, k))
    case CopyFail(k, copied) =>
      var pos := co.pc.pos;
      var data := PartlyCopied(sh.target[pos..pos + k], SourceAt(cfg, pos, k), copied);
      (sh.(target := Patch(sh.target, pos, data), copyRange := false), co.(pc := Retry))
    case WriteChunk(k, effect) =>
      Wrote(sh, co, WrittenChunk(effect, sh.target, co.pc.pos, co.buf, co.pc.pos - co.at, k))
    case WriteFail(k, torn) =>
      (sh.(target := Patch(sh.target, co.pc.pos, torn), ret := Error), co.(pc := Finishing))
    case Finish => (if cfg.inOrder then sh.(wrOffs := End(co)) else sh, co.(pc := Top))
    case Leave =>
      var left := sh.running - 1;
      (sh.(running := left, ret := if left == 0 && sh.ret.InProgress? then Success else sh.ret), co.(pc := Done))
  }

  /** wait_sector_num[j] is the sector that was just reached. */
  predicate Awaits(co: Co, y: nat) { co.pc.Waiting? && co.at == y }

  /** Coroutine `i` takes a step.  Finishing a piece in order enters the
      coroutine that waits for it, if there is one. */
  ghost predicate Next(cfg: Config, s: State, s': State, i: nat, step: Step)
    requires ConfigOk(cfg)
  {
    && i < |s.cos| && Enabled(cfg, s.sh, s.cos[i], step)
    && var (sh, co) := Apply(cfg, s.sh, s.cos[i], step);
    var sh' := if step.Lock? then sh.(lock := Some(i)) else sh;
    var cos := s.cos[i := co];
    if step.Finish? && cfg.inOrder && (exists j :: 0 <= j < |s.cos| && Awaits(s.cos[j], sh.wrOffs)) then
      exists j :: 0 <= j < |s.cos| && Awaits(s.cos[j], sh.wrOffs) &&
                  s' == State(sh', cos[j := cos[j].(pc := Ready)])
    else s' == State(sh', cos)
  }

  ghost predicate Init(cfg: Config, s: State)
    requires ConfigOk(cfg)
  {
    && StatusOk(cfg, s.sh.status, 0, 0)
    && s.sh.target == cfg.initial && s.sh.sectorNum == 0 && s.sh.nextStatus == 0 && s.sh.wrOffs == 0
    && s.sh.ret == InProgress && s.sh.lock == None && s.sh.running == 0 && s.sh.claims == []
    && forall i :: 0 <= i < |s.cos| ==> s.cos[i].pc.Idle?
  }

  // ---- The invariant ---------------------------------------------------

  /** How far the coroutine's own piece has been written. */
  function Pos(co: Co): nat {
    if co.pc.Copying? || co.pc.Writing? then co.pc.pos
    else if co.pc.Finishing? then End(co)
    else co.at
  }

  predicate Past(co: Co) { co.pc.Ready? || co.pc.Copying? || co.pc.Writing? || co.pc.Finishing? }

  predicate HasBuf(co: Co) {
    !co.copy && (co.pc.Ordering? || co.pc.Waiting? || co.pc.Ready? || co.pc.Writing?)
  }

  predicate SourceOn(cfg: Config, target: seq<Sector>, lo: nat, hi: nat)
    requires hi <= Total(cfg) <= |target|
  {
    forall x :: lo <= x < hi ==> target[x] == Concat(cfg.parts)[x]
  }

  predicate InitialOn(cfg: Config, target: seq<Sector>, lo: nat, hi: nat)
    requires hi <= |target| <= |cfg.initial|
  {
    forall x :: lo <= x < hi ==> target[x] == cfg.initial[x]
  }

  predicate PristineOn(cfg: Config, target: seq<Sector>, lo: nat, hi: nat)
    requires hi <= Total(cfg) <= |target| <= |cfg.initial|
  {
    forall x :: lo <= x < hi ==> Pristine(cfg, x, target[x])
  }

  /** As long as no error is recorded, what a claimed piece of the target holds
      and when it may be touched. */
  predicate ContentOk(cfg: Config, sh: Shared, co: Co)
    requires End(co) <= Total(cfg) <= |sh.target| <= |cfg.initial| && Pos(co) <= End(co)
  {
    && PristineOn(cfg, sh.target, co.at, End(co))
    && SourceOn(cfg, sh.target, co.at, Pos(co))
    && (HasBuf(co) && co.status.Data? ==> co.buf == SourceAt(cfg, co.at, co.n))
    && (cfg.inOrder ==>
          && sh.wrOffs <= co.at
          && (Past(co) ==> co.at == sh.wrOffs)
          && (co.pc.Waiting? ==> co.at != sh.wrOffs)
          && (co.at != sh.wrOffs ==> InitialOn(cfg, sh.target, co.at, End(co))))
  }

  predicate LocalOk(cfg: Config, sh: Shared, co: Co)
    requires ConfigOk(cfg) && |sh.target| == |cfg.initial|
  {
    Active(co) ==>
      && 0 < co.n && End(co) <= sh.sectorNum && End(co) <= Total(cfg)
      && StatusOk(cfg, co.status, co.at, End(co))
      && (co.status.Data? || (cfg.minSparse == 0 && co.status.Zero?) ==> co.n <= cfg.bufSectors)
      && co.at <= Pos(co) <= End(co)
      && (co.pc.Copying? || co.pc.Writing? ==> co.pc.pos < End(co) && co.pc.Copying? == co.copy)
      && (co.pc.Reading? ==> !co.copy)
      && (HasBuf(co) ==> |co.buf| == co.n)
      && (sh.ret.InProgress? ==> ContentOk(cfg, sh, co))
  }

  predicate SharedOk(cfg: Config, sh: Shared)
    requires ConfigOk(cfg)
  {
    && |sh.target| == |cfg.initial| && sh.sectorNum <= Total(cfg)
    && StatusOk(cfg, sh.status, sh.sectorNum, sh.nextStatus)
    && InitialOn(cfg, sh.target, sh.sectorNum, |sh.target|)
    && Contiguous(sh.claims, sh.sectorNum)
  }

  /** The claims follow one another from 0 to `end`. */
  predicate Contiguous(claims: seq<Claim>, end: nat)
    decreases |claims|
  {
    if claims == [] then end == 0
    else
      var last := claims[|claims| - 1];
      0 < last.n && end == last.at + last.n && Contiguous(claims[..|claims| - 1], last.at)
  }

  predicate Apart(a: Co, b: Co) { Active(a) && Active(b) ==> End(a) <= b.at || End(b) <= a.at }

  predicate EndsAt(co: Co, y: nat) { Active(co) && End(co) == y }

  ghost predicate SomeEndsAt(cos: seq<Co>, y: nat) { exists j :: 0 <= j < |cos| && EndsAt(cos[j], y) }

  ghost predicate Owned(cos: seq<Co>, x: nat) { exists j :: 0 <= j < |cos| && Owns(cos[j], x) }

  // ---- One step, as seen by the coroutine that takes it -----------------

  /** What any step changes, and what it leaves alone. */
  predicate Delta(sh: Shared, co: Co, sh': Shared, co': Co) {
    && |sh'.target| == |sh.target|
    && (forall x :: 0 <= x < |sh.target| && !Owns(co, x) ==> sh'.target[x] == sh.target[x])
    && (sh'.ret.InProgress? ==> sh.ret.InProgress?)
    && (Active(co) && Active(co') ==> co'.at == co.at && co'.n == co.n)
    && (if !Active(co) && Active(co')
        then co'.at == sh.sectorNum && End(co') == sh'.sectorNum && 0 < co'.n
        else sh'.sectorNum == sh.sectorNum)
    && (if co.pc.Finishing? then sh'.target == sh.target && sh'.ret == sh.ret else sh'.wrOffs == sh.wrOffs)
    && (Active(co) && !Active(co') ==> co.pc.Finishing?)
    && (co.pc.Finishing? ==> co'.pc.Top?)
  }

  /** A request of the coroutine to the target. */
  predicate IsRequest(step: Step) { step.CopyChunk? || step.CopyFail? || step.WriteChunk? || step.WriteFail? }

  /** A step between claiming a piece and writing it. */
  predicate IsPreparation(step: Step) {
    step.Choose? || step.Read? || step.ReadFail? || step.Order? || step.Decide?
  }

  lemma RequestDelta(cfg: Config, sh: Shared, co: Co, step: Step)
    requires IsRequest(step)
    requires ConfigOk(cfg) && SharedOk(cfg, sh) && LocalOk(cfg, sh, co) && Enabled(cfg, sh, co, step)
    ensures var (sh', co') := Apply(cfg, sh, co, step); Delta(sh, co, sh', co')
  {
  }

  lemma StepDelta(cfg: Config, sh: Shared, co: Co, step: Step)
    requires ConfigOk(cfg) && SharedOk(cfg, sh) && LocalOk(cfg, sh, co) && Enabled(cfg, sh, co, step)
    ensures var (sh', co') := Apply(cfg, sh, co, step); Delta(sh, co, sh', co')
  {
    if IsRequest(step) {
      RequestDelta(cfg, sh, co, step);
    }
  }

  lemma StepShared(cfg: Config, sh: Shared, co: Co, step: Step)
    requires ConfigOk(cfg) && SharedOk(cfg, sh) && LocalOk(cfg, sh, co) && Enabled(cfg, sh, co, step)
    ensures var (sh', co') := Apply(cfg, sh, co, step); SharedOk(cfg, sh')
  {
    if step.Plan? {
      var (sh', _) := Apply(cfg, sh, co, step);
      assert sh'.claims[..|sh.claims|] == sh.claims;
    }
  }

  /** A sector that was written is as the source has it. */
  lemma SectorDone(cfg: Config, sh: Shared, co: Co, k: nat, effect: Effect, i: nat)
    requires ConfigOk(cfg) && SharedOk(cfg, sh) && LocalOk(cfg, sh, co) && sh.ret.InProgress?
    requires Enabled(cfg, sh, co, WriteChunk(k, effect)) && i < k
    ensures Written(effect, sh.target[co.pc.pos + i], co.buf[co.pc.pos - co.at + i]) == Concat(cfg.parts)[co.pc.pos + i]
  {
    var pos := co.pc.pos;
    var rest := co.buf[pos - co.at..];
    assert Pristine(cfg, pos + i, sh.target[pos + i]);
    if co.status.Data? {
      assert rest[i] == co.buf[pos - co.at + i] == SourceAt(cfg, co.at, co.n)[pos - co.at + i];
    }
    ChunkCopies(cfg, co.status, pos, rest, k, effect, i, sh.target[pos + i]);
  }

  lemma SectorIs(cfg: Config, sh: Shared, co: Co, k: nat, effect: Effect, i: nat)
    requires ConfigOk(cfg) && SharedOk(cfg, sh) && LocalOk(cfg, sh, co) && sh.ret.InProgress?
    requires Enabled(cfg, sh, co, WriteChunk(k, effect)) && i < k
    ensures WrittenChunk(effect, sh.target, co.pc.pos, co.buf, co.pc.pos - co.at, k)[i] == SourceAt(cfg, co.pc.pos, k)[i]
  {
    SectorDone(cfg, sh, co, k, effect, i);
  }

  /** A request that wrote what the source has. */
  lemma WroteLocal(cfg: Config, sh: Shared, co: Co, data: seq<Sector>)
    requires ConfigOk(cfg) && SharedOk(cfg, sh) && LocalOk(cfg, sh, co)
    requires (co.pc.Copying? || co.pc.Writing?) && 0 < |data| && co.pc.pos + |data| <= End(co)
    requires sh.ret.InProgress? ==> data == SourceAt(cfg, co.pc.pos, |data|)
    ensures var (sh', co') := Wrote(sh, co, data); |sh'.target| == |cfg.initial| && LocalOk(cfg, sh', co')
  {
    var (sh', co') := Wrote(sh, co, data);
    forall x | co.at <= x < co.pc.pos + |data| && sh.ret.InProgress? ensures sh'.target[x] == Concat(cfg.parts)[x] {
      if co.pc.pos <= x {
        assert data[x - co.pc.pos] == SourceAt(cfg, co.pc.pos, |data|)[x - co.pc.pos];
      }
    }
  }

  lemma ChunkDone(cfg: Config, sh: Shared, co: Co, k: nat, effect: Effect)
    requires ConfigOk(cfg) && SharedOk(cfg, sh) && LocalOk(cfg, sh, co) && sh.ret.InProgress?
    requires Enabled(cfg, sh, co, WriteChunk(k, effect))
    ensures WrittenChunk(effect, sh.target, co.pc.pos, co.buf, co.pc.pos - co.at, k) == SourceAt(cfg, co.pc.pos, k)
  {
    var data, source := WrittenChunk(effect, sh.target, co.pc.pos, co.buf, co.pc.pos - co.at, k), SourceAt(cfg, co.pc.pos, k);
    forall i | 0 <= i < k ensures data[i] == source[i] {
      SectorIs(cfg, sh, co, k, effect, i);
    }
  }

  lemma CopyFailLocal(cfg: Config, sh: Shared, co: Co, k: nat, copied: seq<bool>)
    requires ConfigOk(cfg) && SharedOk(cfg, sh) && LocalOk(cfg, sh, co) && Enabled(cfg, sh, co, CopyFail(k, copied))
    ensures var (sh', co') := Apply(cfg, sh, co, CopyFail(k, copied));
            |sh'.target| == |cfg.initial| && LocalOk(cfg, sh', co')
  {
    var pos := co.pc.pos;
    var (sh', _) := Apply(cfg, sh, co, CopyFail(k, copied));
    forall x | co.at <= x < End(co) && sh.ret.InProgress? ensures Pristine(cfg, x, sh'.target[x]) {
      assert Pristine(cfg, x, sh.target[x]);
    }
  }

  lemma ClaimLocal(cfg: Config, sh: Shared, co: Co, step: Step)
    requires ConfigOk(cfg) && SharedOk(cfg, sh) && step.Plan? && Enabled(cfg, sh, co, step)
    requires cfg.inOrder && sh.ret.InProgress? ==> sh.wrOffs <= sh.sectorNum
    ensures var (sh', co') := Apply(cfg, sh, co, step); |sh'.target| == |cfg.initial| && LocalOk(cfg, sh', co')
  {
  }

  lemma ChooseLocal(cfg: Config, sh: Shared, co: Co)
    requires ConfigOk(cfg) && SharedOk(cfg, sh) && LocalOk(cfg, sh, co) && co.pc.Retry?
    ensures LocalOk(cfg, sh, Chosen(cfg, sh, co))
  {
    var co' := Chosen(cfg, sh, co);
    if HasBuf(co') && co'.status.Data? {
      assert co'.buf == SourceAt(cfg, co.at, co.n);
    }
  }

  lemma PrepareLocal(cfg: Config, sh: Shared, co: Co, step: Step)
    requires IsPreparation(step) && !step.Choose?
    requires ConfigOk(cfg) && SharedOk(cfg, sh) && LocalOk(cfg, sh, co) && Enabled(cfg, sh, co, step)
    ensures var (sh', co') := Apply(cfg, sh, co, step); |sh'.target| == |cfg.initial| && LocalOk(cfg, sh', co')
  {
  }

  lemma WriteFailLocal(cfg: Config, sh: Shared, co: Co, step: Step)
    requires step.WriteFail?
    requires ConfigOk(cfg) && SharedOk(cfg, sh) && LocalOk(cfg, sh, co) && Enabled(cfg, sh, co, step)
    ensures var (sh', co') := Apply(cfg, sh, co, step); |sh'.target| == |cfg.initial| && LocalOk(cfg, sh', co')
  {
  }

  lemma WriteChunkLocal(cfg: Config, sh: Shared, co: Co, step: Step)
    requires step.WriteChunk?
    requires ConfigOk(cfg) && SharedOk(cfg, sh) && LocalOk(cfg, sh, co) && Enabled(cfg, sh, co, step)
    ensures var (sh', co') := Apply(cfg, sh, co, step); |sh'.target| == |cfg.initial| && LocalOk(cfg, sh', co')
  {
    var data := ChunkData(cfg, sh, co, step);
    WroteLocal(cfg, sh, co, data);
  }

  lemma ChunkData(cfg: Config, sh: Shared, co: Co, step: Step) returns (data: seq<Sector>)
    requires step.WriteChunk?
    requires ConfigOk(cfg) && SharedOk(cfg, sh) && LocalOk(cfg, sh, co) && Enabled(cfg, sh, co, step)
    ensures |data| == step.k && (sh.ret.InProgress? ==> data == SourceAt(cfg, co.pc.pos, |data|))
    ensures Apply(cfg, sh, co, step) == Wrote(sh, co, data)
  {
    data := WrittenChunk(step.effect, sh.target, co.pc.pos, co.buf, co.pc.pos - co.at, step.k);
    if sh.ret.InProgress? {
      ChunkDone(cfg, sh, co, step.k, step.effect);
    }
  }

  lemma CopyChunkLocal(cfg: Config, sh: Shared, co: Co, step: Step)
    requires step.CopyChunk?
    requires ConfigOk(cfg) && SharedOk(cfg, sh) && LocalOk(cfg, sh, co) && Enabled(cfg, sh, co, step)
    ensures var (sh', co') := Apply(cfg, sh, co, step); |sh'.target| == |cfg.initial| && LocalOk(cfg, sh', co')
  {
    WroteLocal(cfg, sh, co, SourceAt(cfg, co.pc.pos, step.k));
  }

  /** Steps between two pieces. */
  predicate IsIdle(step: Step) {
    step.Start? || step.Lock? || step.Check? || step.PlanFail? || step.Finish? || step.Leave?
  }

  lemma IdleLocal(cfg: Config, sh: Shared, co: Co, step: Step)
    requires IsIdle(step)
    requires ConfigOk(cfg) && SharedOk(cfg, sh) && LocalOk(cfg, sh, co) && Enabled(cfg, sh, co, step)
    ensures var (sh', co') := Apply(cfg, sh, co, step); |sh'.target| == |cfg.initial| && LocalOk(cfg, sh', co')
  {
  }

  lemma StepLocal(cfg: Config, sh: Shared, co: Co, step: Step)
    requires ConfigOk(cfg) && SharedOk(cfg, sh) && LocalOk(cfg, sh, co) && Enabled(cfg, sh, co, step)
    requires step.Plan? && cfg.inOrder && sh.ret.InProgress? ==> sh.wrOffs <= sh.sectorNum
    ensures var (sh', co') := Apply(cfg, sh, co, step); |sh'.target| == |cfg.initial| && LocalOk(cfg, sh', co')
  {
    match step
    case WriteChunk(_, _) => WriteChunkLocal(cfg, sh, co, step);
    case CopyFail(k, copied) => CopyFailLocal(cfg, sh, co, k, copied);
    case CopyChunk(_) => CopyChunkLocal(cfg, sh, co, step);
    case Plan(_, _, _) => ClaimLocal(cfg, sh, co, step);
    case Choose => ChooseLocal(cfg, sh, co);
    case WriteFail(_, _) => WriteFailLocal(cfg, sh, co, step);
    case Read => PrepareLocal(cfg, sh, co, step);
    case ReadFail(_) => PrepareLocal(cfg, sh, co, step);
    case Order => PrepareLocal(cfg, sh, co, step);
    case Decide => PrepareLocal(cfg, sh, co, step);
    case _ => IdleLocal(cfg, sh, co, step);
  }

  // ---- One step, as seen by the other coroutines ------------------------

  ghost predicate FinishMoves(cfg: Config, sh: Shared, co: Co, sh': Shared) {
    co.pc.Finishing? ==> sh'.wrOffs == if cfg.inOrder then End(co) else sh.wrOffs
  }

  lemma OtherLocal(cfg: Config, sh: Shared, co: Co, sh': Shared, co': Co, other: Co)
    requires ConfigOk(cfg) && SharedOk(cfg, sh) && LocalOk(cfg, sh, co) && LocalOk(cfg, sh, other)
    requires Apart(co, other) && Delta(sh, co, sh', co') && FinishMoves(cfg, sh, co, sh')
    requires cfg.inOrder && co.pc.Finishing? ==> !Awaits(other, End(co))
    ensures LocalOk(cfg, sh', other)
  {
    if Active(other) && sh'.ret.InProgress? {
      assert forall x :: other.at <= x < End(other) ==> sh'.target[x] == sh.target[x];
    }
  }

  lemma WokenLocal(cfg: Config, sh: Shared, co: Co, sh': Shared, co': Co, other: Co)
    requires ConfigOk(cfg) && SharedOk(cfg, sh) && LocalOk(cfg, sh, co) && LocalOk(cfg, sh, other)
    requires Apart(co, other) && Delta(sh, co, sh', co') && FinishMoves(cfg, sh, co, sh')
    requires cfg.inOrder && co.pc.Finishing? && Awaits(other, End(co))
    ensures LocalOk(cfg, sh', other.(pc := Ready))
  {
    if sh'.ret.InProgress? {
      assert forall x :: other.at <= x < End(other) ==> sh'.target[x] == sh.target[x];
    }
  }
}
