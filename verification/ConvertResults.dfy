/** What qemu-img convert promises, over all its runs. */
module ConvertResults {
  import opened ConvertCopy
  import opened ConvertRun
  import opened ConvertSafety
  import opened Sectors

  predicate InClaim(c: Claim, x: nat) { c.at <= x < c.at + c.n }

  /** Claim `k` and no other covers sector `x`. */
  predicate OnlyClaim(claims: seq<Claim>, x: nat, k: nat) {
    && k < |claims| && InClaim(claims[k], x)
    && forall j :: 0 <= j < |claims| && j != k ==> !InClaim(claims[j], x)
  }

  ghost predicate ClaimedOnce(claims: seq<Claim>, x: nat) {
    exists k: nat :: OnlyClaim(claims, x, k)
  }

  predicate NoneBehind(claims: seq<Claim>, end: nat) {
    forall k :: 0 <= k < |claims| ==> claims[k].at + claims[k].n <= end
  }

  lemma AddClaim(rest: seq<Claim>, last: Claim, x: nat)
    requires NoneBehind(rest, last.at) && (x < last.at ==> ClaimedOnce(rest, x))
    ensures NoneBehind(rest + [last], last.at + last.n)
    ensures x < last.at + last.n ==> ClaimedOnce(rest + [last], x)
  {
    var claims := rest + [last];
    if x < last.at {
      var k: nat :| OnlyClaim(rest, x, k);
      assert OnlyClaim(claims, x, k);
    } else if x < last.at + last.n {
      assert OnlyClaim(claims, x, |rest|);
    }
  }

  /** Contiguous claims partition what they cover. */
  lemma {:induction false} ClaimsPartition(claims: seq<Claim>, end: nat, x: nat)
    requires Contiguous(claims, end)
    ensures x < end ==> ClaimedOnce(claims, x)
    ensures NoneBehind(claims, end)
  {
    if claims != [] {
      var rest, last := claims[..|claims| - 1], claims[|claims| - 1];
      ClaimsPartition(rest, last.at, x);
      AddClaim(rest, last, x);
      assert rest + [last] == claims;
    }
  }

  /** When a conversion reports success, the claims partition the source and the
      target shows exactly the concatenated sources, whatever the coroutines
      did in between; behind that the target is as it was. */
  lemma CopyIsExact(cfg: Config, run: seq<State>)
    requires ConfigOk(cfg) && IsRun(cfg, run) && run[|run| - 1].sh.ret.Success?
    ensures var sh := run[|run| - 1].sh;
            && sh.target == Concat(cfg.parts) + cfg.initial[Total(cfg)..]
            && NoneBehind(sh.claims, Total(cfg))
            && forall x: nat :: x < Total(cfg) ==> ClaimedOnce(sh.claims, x)
  {
    RunKeeps(cfg, run, |run| - 1);
    var sh := run[|run| - 1].sh;
    forall x: nat ensures x < Total(cfg) ==> ClaimedOnce(sh.claims, x) {
      ClaimsPartition(sh.claims, sh.sectorNum, x);
    }
    ClaimsPartition(sh.claims, sh.sectorNum, 0);
  }

  /** Between wr_offs and the next sector to be claimed, all is in progress. */
  lemma {:induction false} InProgressBehind(cfg: Config, s: State, x: nat, y: nat)
    requires ConfigOk(cfg) && Inv(cfg, s) && cfg.inOrder && s.sh.ret.InProgress?
    requires Reached(s, y) && s.sh.wrOffs <= x < y
    ensures Owned(s.cos, x)
    decreases y
  {
    var j :| 0 <= j < |s.cos| && EndsAt(s.cos[j], y);
    assert LocalOk(cfg, s.sh, s.cos[j]);
    if x < s.cos[j].at {
      InProgressBehind(cfg, s, x, s.cos[j].at);
    } else {
      assert Owns(s.cos[j], x);
    }
  }

  /** The sector is in the piece that is being written. */
  ghost predicate AtFront(s: State, x: nat) {
    exists i :: 0 <= i < |s.cos| && Owns(s.cos[i], x) && s.cos[i].at == s.sh.wrOffs
  }

  /** With ordered writes and no error, the target is the source up to wr_offs
      and untouched elsewhere, except in the piece that begins there. */
  lemma OrderedWrites(cfg: Config, run: seq<State>, x: nat)
    requires ConfigOk(cfg) && IsRun(cfg, run) && cfg.inOrder && x < |cfg.initial|
    requires run[|run| - 1].sh.ret.InProgress?
    ensures var s := run[|run| - 1];
            && |s.sh.target| == |cfg.initial|
            && (x < s.sh.wrOffs ==> x < Total(cfg) && s.sh.target[x] == Concat(cfg.parts)[x])
            && (x >= s.sh.wrOffs ==> s.sh.target[x] == cfg.initial[x] || AtFront(s, x))
  {
    RunKeeps(cfg, run, |run| - 1);
    var s := run[|run| - 1];
    if x < s.sh.wrOffs {
      forall i | 0 <= i < |s.cos| ensures !Owns(s.cos[i], x) {
        assert LocalOk(cfg, s.sh, s.cos[i]);
      }
    } else if x < s.sh.sectorNum {
      InProgressBehind(cfg, s, x, s.sh.sectorNum);
      var i :| 0 <= i < |s.cos| && Owns(s.cos[i], x);
      assert LocalOk(cfg, s.sh, s.cos[i]);
    }
  }

  // ---- Nobody is left behind -------------------------------------------

  predicate Runs(co: Co) { Active(co) && !co.pc.Waiting? }

  /** Whether or not there was an error, a coroutine that waits for its turn is
      the only one to wait for that sector, an unfinished piece ends exactly
      there, and a coroutine below it is not waiting itself. */
  lemma WaiterIsWoken(cfg: Config, run: seq<State>, k: nat, i: nat)
    requires ConfigOk(cfg) && IsRun(cfg, run) && k < |run| && i < |run[k].cos| && run[k].cos[i].pc.Waiting?
    ensures var s := run[k];
            && SomeEndsAt(s.cos, s.cos[i].at)
            && (forall j :: 0 <= j < |s.cos| && Awaits(s.cos[j], s.cos[i].at) ==> j == i)
            && exists j :: 0 <= j < |s.cos| && Runs(s.cos[j]) && End(s.cos[j]) <= s.cos[i].at
  {
    RunKeeps(cfg, run, k);
    TurnComes(cfg, run[k], i);
  }

  lemma {:induction false} TurnComes(cfg: Config, s: State, i: nat)
    requires ConfigOk(cfg) && Inv(cfg, s) && i < |s.cos| && s.cos[i].pc.Waiting?
    ensures SomeEndsAt(s.cos, s.cos[i].at)
    ensures forall j :: 0 <= j < |s.cos| && Awaits(s.cos[j], s.cos[i].at) ==> j == i
    ensures exists j :: 0 <= j < |s.cos| && Runs(s.cos[j]) && End(s.cos[j]) <= s.cos[i].at
    decreases s.cos[i].at
  {
    forall j | 0 <= j < |s.cos| && Awaits(s.cos[j], s.cos[i].at) ensures j == i {
      OneWaiter(cfg, s, i, j, s.cos[i].at);
    }
    var j :| 0 <= j < |s.cos| && EndsAt(s.cos[j], s.cos[i].at);
    assert LocalOk(cfg, s.sh, s.cos[j]);
    if s.cos[j].pc.Waiting? {
      TurnComes(cfg, s, j);
    } else {
      assert Runs(s.cos[j]);
    }
  }

  ghost predicate CanStep(cfg: Config, sh: Shared, co: Co)
    requires ConfigOk(cfg)
  {
    exists step :: Enabled(cfg, sh, co, step)
  }

  /** A coroutine with a piece that does not wait can go on. */
  lemma RunsCanStep(cfg: Config, sh: Shared, co: Co)
    requires ConfigOk(cfg) && SharedOk(cfg, sh) && LocalOk(cfg, sh, co) && Runs(co)
    ensures CanStep(cfg, sh, co)
  {
    if co.pc.Copying? {
      assert Enabled(cfg, sh, co, CopyChunk(1));
    } else if co.pc.Writing? {
      var rest := co.buf[co.pc.pos - co.at..];
      var effect := if co.status.Data? then WriteData else if co.status.Backing? || cfg.hasZeroInit then Skip else WriteZeroes;
      assert ChunkOk(cfg, co.status, rest, |rest|, effect);
      assert Enabled(cfg, sh, co, WriteChunk(|rest|, effect));
    } else {
      var step := if co.pc.Retry? then Choose else if co.pc.Reading? then Read else if co.pc.Ordering? then Order
                  else if co.pc.Ready? then Decide else Finish;
      assert Enabled(cfg, sh, co, step);
    }
  }

  lemma OthersCanStep(cfg: Config, s: State, i: nat)
    requires ConfigOk(cfg) && Inv(cfg, s) && i < |s.cos| && !Active(s.cos[i]) && !s.cos[i].pc.Done?
    requires s.cos[i].pc.Top? ==> s.sh.lock.None?
    ensures CanStep(cfg, s.sh, s.cos[i])
  {
    var co := s.cos[i];
    if co.pc.Leaving? {
      assert i in Live(s.cos);
      assert Enabled(cfg, s.sh, co, Leave);
    } else {
      var step := if co.pc.Idle? then Start else if co.pc.Top? then Lock else if co.pc.Locked? then Check else PlanFail;
      assert Enabled(cfg, s.sh, co, step);
    }
  }

  /** As long as a coroutine is not done, some coroutine can go on. */
  lemma NeverStuck(cfg: Config, run: seq<State>, k: nat, i: nat)
    requires ConfigOk(cfg) && IsRun(cfg, run) && k < |run| && i < |run[k].cos| && !run[k].cos[i].pc.Done?
    ensures exists j :: 0 <= j < |run[k].cos| && CanStep(cfg, run[k].sh, run[k].cos[j])
  {
    RunKeeps(cfg, run, k);
    SomeCanStep(cfg, run[k], i);
  }

  lemma SomeCanStep(cfg: Config, s: State, i: nat)
    requires ConfigOk(cfg) && Inv(cfg, s) && i < |s.cos| && !s.cos[i].pc.Done?
    ensures exists j :: 0 <= j < |s.cos| && CanStep(cfg, s.sh, s.cos[j])
  {
    assert LocalOk(cfg, s.sh, s.cos[i]);
    if s.cos[i].pc.Waiting? {
      TurnComes(cfg, s, i);
      var j :| 0 <= j < |s.cos| && Runs(s.cos[j]);
      assert LocalOk(cfg, s.sh, s.cos[j]);
      RunsCanStep(cfg, s.sh, s.cos[j]);
    } else if Active(s.cos[i]) {
      RunsCanStep(cfg, s.sh, s.cos[i]);
    } else if s.cos[i].pc.Top? && s.sh.lock.Some? {
      OthersCanStep(cfg, s, s.sh.lock.value);
    } else {
      OthersCanStep(cfg, s, i);
    }
  }

  // ---- Every run ends --------------------------------------------------

  /** A bound on the steps that a coroutine takes before its next claim. */
  function Remaining(copyRange: bool, co: Co): nat {
    var n := co.n;
    match co.pc
    case Idle => 5
    case Top => 4
    case Locked => 3
    case Planning => 2
    case Leaving => 1
    case Done => 0
    case Finishing => 5
    case Writing(pos) => 5 + (if pos <= End(co) then End(co) - pos else 0)
    case Copying(pos) => 11 + n + (if pos <= End(co) then End(co) - pos else 0)
    case Ready => if co.copy then 12 + 2 * n else 6 + n
    case Waiting => if co.copy then 13 + 2 * n else 7 + n
    case Ordering => if co.copy then 14 + 2 * n else 8 + n
    case Reading => 9 + n
    case Retry => if copyRange then 15 + 2 * n else 10 + n
  }

  function Sum(copyRange: bool, cos: seq<Co>): nat {
    if cos == [] then 0 else Remaining(copyRange, cos[0]) + Sum(copyRange, cos[1..])
  }

  lemma {:induction false} SumUpdate(copyRange: bool, cos: seq<Co>, i: nat, co: Co)
    requires i < |cos|
    ensures Sum(copyRange, cos[i := co]) == Sum(copyRange, cos) - Remaining(copyRange, cos[i]) + Remaining(copyRange, co)
  {
    if i > 0 {
      SumUpdate(copyRange, cos[1..], i - 1, co);
      assert cos[i := co][1..] == cos[1..][i - 1 := co];
    } else {
      assert cos[i := co][1..] == cos[1..];
    }
  }

  /** Giving up on copy_range only makes the other coroutines' work shorter. */
  lemma {:induction false} SumRange(before: bool, after: bool, cos: seq<Co>, i: nat)
    requires (after ==> before) && i < |cos|
    ensures Sum(after, cos) - Remaining(after, cos[i]) <= Sum(before, cos) - Remaining(before, cos[i])
  {
    if i > 0 {
      SumRange(before, after, cos[1..], i - 1);
    } else if |cos| > 1 {
      SumRange(before, after, cos[1..], 0);
    }
  }

  function Variant(cfg: Config, s: State): int {
    16 * (Total(cfg) - s.sh.sectorNum) + Sum(s.sh.copyRange, s.cos)
  }

  lemma RequestDecreases(cfg: Config, sh: Shared, co: Co, step: Step)
    requires IsRequest(step)
    requires ConfigOk(cfg) && SharedOk(cfg, sh) && LocalOk(cfg, sh, co) && Enabled(cfg, sh, co, step)
    ensures var (sh', co') := Apply(cfg, sh, co, step);
            && (sh'.copyRange ==> sh.copyRange)
            && 16 * (sh'.sectorNum - sh.sectorNum) + Remaining(sh.copyRange, co) > Remaining(sh'.copyRange, co')
  {
  }

  lemma StepDecreases(cfg: Config, sh: Shared, co: Co, step: Step)
    requires ConfigOk(cfg) && SharedOk(cfg, sh) && LocalOk(cfg, sh, co) && Enabled(cfg, sh, co, step)
    ensures var (sh', co') := Apply(cfg, sh, co, step);
            && (sh'.copyRange ==> sh.copyRange)
            && 16 * (sh'.sectorNum - sh.sectorNum) + Remaining(sh.copyRange, co) > Remaining(sh'.copyRange, co')
  {
    if IsRequest(step) {
      RequestDecreases(cfg, sh, co, step);
    }
  }

  /** Waking the coroutines whose turn has come does not add to the sum. */
  lemma {:induction false} SumWoken(copyRange: bool, cos: seq<Co>, cos': seq<Co>)
    requires |cos'| == |cos|
    requires forall k :: 0 <= k < |cos| ==> cos'[k] == cos[k] || (cos[k].pc.Waiting? && cos'[k] == cos[k].(pc := Ready))
    ensures Sum(copyRange, cos') <= Sum(copyRange, cos)
  {
    if cos != [] {
      SumWoken(copyRange, cos[1..], cos'[1..]);
    }
  }

  /** Every step uses up some of a fixed budget, so a conversion ends. */
  lemma NextDecreases(cfg: Config, s: State, s': State, i: nat, step: Step)
    requires ConfigOk(cfg) && Inv(cfg, s) && Next(cfg, s, s', i, step)
    ensures Variant(cfg, s') < Variant(cfg, s)
  {
    NextMoves(cfg, s, s', i, step);
    assert LocalOk(cfg, s.sh, s.cos[i]);
    StepDecreases(cfg, s.sh, s.cos[i], step);
    MoveDecreases(cfg, s, s', i);
  }

  lemma MoveDecreases(cfg: Config, s: State, s': State, i: nat)
    requires i < |s.cos| && i < |s'.cos| && Others(cfg, s.cos, i, s'.cos[i], s'.cos)
    requires s'.sh.copyRange ==> s.sh.copyRange
    requires 16 * (s'.sh.sectorNum - s.sh.sectorNum) + Remaining(s.sh.copyRange, s.cos[i]) >
             Remaining(s'.sh.copyRange, s'.cos[i])
    ensures Variant(cfg, s') < Variant(cfg, s)
  {
    var cos := s.cos[i := s'.cos[i]];
    SumUpdate(s'.sh.copyRange, s.cos, i, s'.cos[i]);
    SumWoken(s'.sh.copyRange, cos, s'.cos);
    SumRange(s.sh.copyRange, s'.sh.copyRange, s.cos, i);
  }

  lemma {:induction false} SumIdle(copyRange: bool, cos: seq<Co>)
    requires forall i :: 0 <= i < |cos| ==> cos[i].pc.Idle?
    ensures Sum(copyRange, cos) == 5 * |cos|
  {
    if cos != [] {
      SumIdle(copyRange, cos[1..]);
    }
  }

  lemma {:induction false} RunBound(cfg: Config, run: seq<State>, k: nat)
    requires ConfigOk(cfg) && IsRun(cfg, run) && k < |run|
    ensures Variant(cfg, run[k]) + k <= Variant(cfg, run[0])
  {
    if k > 0 {
      RunBound(cfg, run, k - 1);
      RunKeeps(cfg, run, k - 1);
      assert CanNext(cfg, run[k - 1], run[k]);
      var i, step :| Next(cfg, run[k - 1], run[k], i, step);
      NextDecreases(cfg, run[k - 1], run[k], i, step);
    }
  }

  /** A run takes a bounded number of steps; when it cannot go on, every
      coroutine is done and the result says either success or error. */
  lemma RunsEnd(cfg: Config, run: seq<State>)
    requires ConfigOk(cfg) && IsRun(cfg, run) && |run[0].cos| > 0
    ensures |run| <= 1 + 16 * Total(cfg) + 5 * |run[0].cos|
    ensures var s := run[|run| - 1];
            (forall i :: 0 <= i < |s.cos| ==> !CanStep(cfg, s.sh, s.cos[i])) ==>
              && (forall i :: 0 <= i < |s.cos| ==> s.cos[i].pc.Done?)
              && !s.sh.ret.InProgress?
  {
    var s := run[|run| - 1];
    RunBound(cfg, run, |run| - 1);
    RunKeeps(cfg, run, |run| - 1);
    SumIdle(run[0].sh.copyRange, run[0].cos);
    SameCount(cfg, run, |run| - 1);
    if forall i :: 0 <= i < |s.cos| ==> !CanStep(cfg, s.sh, s.cos[i]) {
      forall i | 0 <= i < |s.cos| ensures s.cos[i].pc.Done? {
        if !s.cos[i].pc.Done? {
          NeverStuck(cfg, run, |run| - 1, i);
        }
      }
      assert Live(s.cos) == {};
      assert s.cos[0].pc.Done?;
    }
  }

  lemma {:induction false} SameCount(cfg: Config, run: seq<State>, k: nat)
    requires ConfigOk(cfg) && IsRun(cfg, run) && k < |run|
    ensures |run[k].cos| == |run[0].cos|
  {
    if k > 0 {
      SameCount(cfg, run, k - 1);
      assert CanNext(cfg, run[k - 1], run[k]);
    }
  }
}
