/** What holds in every state that the convert coroutines can reach. */
module ConvertSafety {
  import opened ConvertCopy
  import opened ConvertRun
  import opened Options
  import opened Sectors

  predicate HoldsLock(co: Co) { co.pc.Locked? || co.pc.Planning? }

  predicate IsLive(co: Co) { !co.pc.Idle? && !co.pc.Done? }

  function Live(cos: seq<Co>): set<nat> { set i | 0 <= i < |cos| && IsLive(cos[i]) }

  /** Every piece is as LocalOk has it, and no two pieces overlap. */
  ghost predicate PiecesOk(cfg: Config, s: State)
    requires ConfigOk(cfg) && SharedOk(cfg, s.sh)
  {
    && (forall i :: 0 <= i < |s.cos| ==> LocalOk(cfg, s.sh, s.cos[i]))
    && (forall i, j :: 0 <= i < |s.cos| && 0 <= j < |s.cos| && i != j ==> Apart(s.cos[i], s.cos[j]))
  }

  ghost predicate LockOk(cfg: Config, s: State) {
    && (forall i :: 0 <= i < |s.cos| ==> (HoldsLock(s.cos[i]) <==> s.sh.lock == Some(i)))
    && (s.sh.lock.Some? ==> s.sh.lock.value < |s.cos|)
    && (forall i :: 0 <= i < |s.cos| && s.cos[i].pc.Planning? ==> s.sh.sectorNum < Total(cfg))
  }

  /** A sector at which a piece begins is where the ordered writes are, or
      where another unfinished piece ends. */
  ghost predicate Reached(s: State, y: nat) { y == s.sh.wrOffs || SomeEndsAt(s.cos, y) }

  ghost predicate ChainOk(cfg: Config, s: State) {
    cfg.inOrder && s.sh.ret.InProgress? ==>
      && s.sh.wrOffs <= s.sh.sectorNum
      && Reached(s, s.sh.sectorNum)
      && forall i :: 0 <= i < |s.cos| && Active(s.cos[i]) ==> Reached(s, s.cos[i].at)
  }

  /** With or without an error, a waiting coroutine has one that will wake it. */
  ghost predicate WaitOk(cfg: Config, s: State) {
    forall i :: 0 <= i < |s.cos| && s.cos[i].pc.Waiting? ==> cfg.inOrder && SomeEndsAt(s.cos, s.cos[i].at)
  }

  /** Claimed sectors are in progress or done. */
  ghost predicate SectorsOk(cfg: Config, s: State)
    requires ConfigOk(cfg) && SharedOk(cfg, s.sh)
  {
    s.sh.ret.InProgress? ==>
      forall x :: 0 <= x < s.sh.sectorNum ==> s.sh.target[x] == Concat(cfg.parts)[x] || Owned(s.cos, x)
  }

  ghost predicate ReturnOk(cfg: Config, s: State)
    requires ConfigOk(cfg) && SharedOk(cfg, s.sh)
  {
    && s.sh.running == |Live(s.cos)|
    && (s.sh.ret.InProgress? && s.sh.running == 0 ==> forall i :: 0 <= i < |s.cos| ==> s.cos[i].pc.Idle?)
    && (forall i :: 0 <= i < |s.cos| && s.sh.ret.InProgress? && (s.cos[i].pc.Leaving? || s.cos[i].pc.Done?) ==>
          s.sh.sectorNum == Total(cfg))
    && (s.sh.ret.Success? ==>
          && s.sh.sectorNum == Total(cfg) && SourceOn(cfg, s.sh.target, 0, Total(cfg))
          && forall i :: 0 <= i < |s.cos| ==> !Active(s.cos[i]) && !s.cos[i].pc.Planning?)
  }

  ghost predicate Inv(cfg: Config, s: State)
    requires ConfigOk(cfg)
  {
    && SharedOk(cfg, s.sh) && PiecesOk(cfg, s) && LockOk(cfg, s) && ChainOk(cfg, s)
    && WaitOk(cfg, s) && SectorsOk(cfg, s) && ReturnOk(cfg, s)
  }

  lemma InitInv(cfg: Config, s: State)
    requires ConfigOk(cfg) && Init(cfg, s)
    ensures Inv(cfg, s)
  {
    assert Live(s.cos) == {};
  }

  // ---- What a step does ------------------------------------------------

  /** Coroutine `i` has become `co`; the others are as before, except that a
      waiting one whose turn has come goes on. */
  ghost predicate Others(cfg: Config, cos: seq<Co>, i: nat, co: Co, cos': seq<Co>)
    requires i < |cos|
  {
    && |cos'| == |cos| && cos'[i] == co
    && forall k :: 0 <= k < |cos| && k != i ==>
         if cfg.inOrder && cos[i].pc.Finishing? && Awaits(cos[k], End(cos[i]))
         then cos'[k] == cos[k].(pc := Ready)
         else cos'[k] == cos[k]
  }

  predicate StartsWaiting(cfg: Config, sh: Shared, co: Co, co': Co) {
    co'.pc.Waiting? ==> co.pc.Ordering? && cfg.inOrder && sh.ret.InProgress? && sh.wrOffs != co.at
  }

  /** What a step does to the shared fields and to its own coroutine. */
  ghost predicate Stepped(cfg: Config, sh: Shared, co: Co, sh': Shared, co': Co)
    requires ConfigOk(cfg)
  {
    && SharedOk(cfg, sh') && Delta(sh, co, sh', co') && LocalOk(cfg, sh', co')
    && FinishMoves(cfg, sh, co, sh') && StartsWaiting(cfg, sh, co, co')
  }

  /** The facts about a step on which everything else rests. */
  ghost predicate Moves(cfg: Config, s: State, i: nat, s': State)
    requires ConfigOk(cfg) && i < |s.cos| && i < |s'.cos|
  {
    Stepped(cfg, s.sh, s.cos[i], s'.sh, s'.cos[i]) && Others(cfg, s.cos, i, s'.cos[i], s'.cos)
  }

  /** At most one coroutine waits for a sector, so the loop that looks for it may
      stop at the first. */
  lemma OneWaiter(cfg: Config, s: State, i: nat, j: nat, y: nat)
    requires ConfigOk(cfg) && Inv(cfg, s) && i < |s.cos| && j < |s.cos|
    requires Awaits(s.cos[i], y) && Awaits(s.cos[j], y)
    ensures i == j
  {
    assert LocalOk(cfg, s.sh, s.cos[i]) && LocalOk(cfg, s.sh, s.cos[j]);
  }

  lemma NextMoves(cfg: Config, s: State, s': State, i: nat, step: Step)
    requires ConfigOk(cfg) && Inv(cfg, s) && Next(cfg, s, s', i, step)
    ensures Moves(cfg, s, i, s')
  {
    assert LocalOk(cfg, s.sh, s.cos[i]);
    StepFacts(cfg, s.sh, s.cos[i], step);
    NextShared(cfg, s, s', i, step);
    NextOthers(cfg, s, s', i, step);
  }

  lemma StepFacts(cfg: Config, sh: Shared, co: Co, step: Step)
    requires ConfigOk(cfg) && SharedOk(cfg, sh) && LocalOk(cfg, sh, co) && Enabled(cfg, sh, co, step)
    requires step.Plan? && cfg.inOrder && sh.ret.InProgress? ==> sh.wrOffs <= sh.sectorNum
    ensures var (sh', co') := Apply(cfg, sh, co, step); Stepped(cfg, sh, co, sh', co')
  {
    StepDelta(cfg, sh, co, step);
    StepShared(cfg, sh, co, step);
    StepLocal(cfg, sh, co, step);
  }

  /** Apart from the lock, the shared fields are as the step leaves them. */
  lemma NextShared(cfg: Config, s: State, s': State, i: nat, step: Step)
    requires ConfigOk(cfg) && Next(cfg, s, s', i, step)
    ensures var (sh, co) := Apply(cfg, s.sh, s.cos[i], step);
            s'.sh == sh.(lock := s'.sh.lock)
  {
  }

  lemma NextOthers(cfg: Config, s: State, s': State, i: nat, step: Step)
    requires ConfigOk(cfg) && Inv(cfg, s) && Next(cfg, s, s', i, step)
    ensures var (sh, co) := Apply(cfg, s.sh, s.cos[i], step); Others(cfg, s.cos, i, co, s'.cos)
  {
    forall k, j | 0 <= k < |s.cos| && 0 <= j < |s.cos| && Awaits(s.cos[k], End(s.cos[i])) && Awaits(s.cos[j], End(s.cos[i]))
      ensures k == j {
      OneWaiter(cfg, s, k, j, End(s.cos[i]));
    }
  }

  // ---- Everything is kept ----------------------------------------------

  lemma PieceKept(cfg: Config, s: State, i: nat, s': State, k: nat)
    requires ConfigOk(cfg) && Inv(cfg, s) && i < |s.cos| && i < |s'.cos| && Moves(cfg, s, i, s')
    requires k < |s.cos| && k != i
    ensures LocalOk(cfg, s'.sh, s'.cos[k])
  {
    var co := s.cos[i];
    assert LocalOk(cfg, s.sh, s.cos[k]) && Apart(co, s.cos[k]);
    if cfg.inOrder && co.pc.Finishing? && Awaits(s.cos[k], End(co)) {
      WokenLocal(cfg, s.sh, co, s'.sh, s'.cos[i], s.cos[k]);
    } else {
      OtherLocal(cfg, s.sh, co, s'.sh, s'.cos[i], s.cos[k]);
    }
  }

  lemma PiecesKept(cfg: Config, s: State, i: nat, s': State)
    requires ConfigOk(cfg) && Inv(cfg, s) && i < |s.cos| && i < |s'.cos| && Moves(cfg, s, i, s')
    ensures PiecesOk(cfg, s')
  {
    forall k | 0 <= k < |s.cos| ensures LocalOk(cfg, s'.sh, s'.cos[k]) {
      if k != i {
        PieceKept(cfg, s, i, s', k);
      }
    }
    forall k, j | 0 <= k < |s.cos| && 0 <= j < |s.cos| && k != j ensures Apart(s'.cos[k], s'.cos[j]) {
      assert Apart(s.cos[k], s.cos[j]);
      assert LocalOk(cfg, s.sh, s.cos[k]) && LocalOk(cfg, s.sh, s.cos[j]);
    }
  }

  /** Who ended at `y` still does, unless it was `i` and it has finished. */
  lemma EndsKept(cfg: Config, s: State, i: nat, s': State, y: nat)
    requires ConfigOk(cfg) && Inv(cfg, s) && i < |s.cos| && i < |s'.cos| && Moves(cfg, s, i, s')
    requires SomeEndsAt(s.cos, y)
    ensures SomeEndsAt(s'.cos, y) || (s.cos[i].pc.Finishing? && End(s.cos[i]) == y)
  {
    var k :| 0 <= k < |s.cos| && EndsAt(s.cos[k], y);
    assert k != i ==> EndsAt(s'.cos[k], y);
    assert k == i && !s.cos[i].pc.Finishing? ==> EndsAt(s'.cos[i], y);
  }

  lemma ChainKept(cfg: Config, s: State, i: nat, s': State)
    requires ConfigOk(cfg) && Inv(cfg, s) && i < |s.cos| && i < |s'.cos| && Moves(cfg, s, i, s')
    ensures ChainOk(cfg, s')
  {
    var co, co' := s.cos[i], s'.cos[i];
    if cfg.inOrder && s'.sh.ret.InProgress? {
      assert LocalOk(cfg, s.sh, co);
      forall y | Reached(s, y) && (y == s.sh.wrOffs ==> !co.pc.Finishing?) ensures Reached(s', y) {
        if y != s.sh.wrOffs {
          EndsKept(cfg, s, i, s', y);
        }
      }
      if !Active(co) && Active(co') {
        assert EndsAt(s'.cos[i], s'.sh.sectorNum);
      }
      forall k | 0 <= k < |s.cos| && Active(s'.cos[k]) ensures Reached(s', s'.cos[k].at) {
        assert LocalOk(cfg, s.sh, s.cos[k]);
        assert k != i ==> Apart(co, s.cos[k]) && Active(s.cos[k]);
      }
    }
  }

  lemma WaitKept(cfg: Config, s: State, i: nat, s': State)
    requires ConfigOk(cfg) && Inv(cfg, s) && i < |s.cos| && i < |s'.cos| && Moves(cfg, s, i, s')
    ensures WaitOk(cfg, s')
  {
    forall k | 0 <= k < |s'.cos| && s'.cos[k].pc.Waiting? ensures cfg.inOrder && SomeEndsAt(s'.cos, s'.cos[k].at) {
      if k == i {
        assert Reached(s, s.cos[i].at);
      }
      EndsKept(cfg, s, i, s', s'.cos[k].at);
    }
  }

  lemma SectorsKept(cfg: Config, s: State, i: nat, s': State)
    requires ConfigOk(cfg) && Inv(cfg, s) && i < |s.cos| && i < |s'.cos| && Moves(cfg, s, i, s')
    ensures SectorsOk(cfg, s')
  {
    var co, co' := s.cos[i], s'.cos[i];
    forall x | 0 <= x < s'.sh.sectorNum && s'.sh.ret.InProgress?
      ensures s'.sh.target[x] == Concat(cfg.parts)[x] || Owned(s'.cos, x) {
      if x >= s.sh.sectorNum {
        assert Owns(s'.cos[i], x);
      } else if Owned(s.cos, x) {
        var k :| 0 <= k < |s.cos| && Owns(s.cos[k], x);
        assert k != i || Active(co') ==> Owns(s'.cos[k], x);
        assert LocalOk(cfg, s.sh, co);
      }
    }
  }

  /** How the lock, the count of coroutines and the result change. */
  predicate Accounts(cfg: Config, sh: Shared, co: Co, i: nat, sh': Shared, co': Co) {
    && sh'.lock == (if co.pc.Top? then Some(i) else if HoldsLock(co) && !co'.pc.Planning? then None else sh.lock)
    && (co.pc.Top? ==> sh.lock.None?)
    && HoldsLock(co') == (co.pc.Top? || (HoldsLock(co) && co'.pc.Planning?))
    && (co'.pc.Planning? ==> sh.sectorNum < Total(cfg) && !sh.ret.Success?)
    && (!Active(co) && Active(co') ==> HoldsLock(co))
    && (!IsLive(co) ==> co.pc.Idle? && sh'.running == sh.running + 1 && IsLive(co'))
    && (IsLive(co) && IsLive(co') ==> sh'.running == sh.running)
    && (IsLive(co) && !IsLive(co') ==> co.pc.Leaving? && sh'.running == sh.running - 1)
    && (IsLive(co) && !IsLive(co') && sh'.running == 0 ==> !sh'.ret.InProgress?)
    && (sh.ret.Success? ==> sh'.ret.Success? && sh'.target == sh.target && !Active(co'))
    && (!sh.ret.Success? && sh'.ret.Success? ==>
          sh.ret.InProgress? && sh'.running == 0 && co.pc.Leaving? && co'.pc.Done? && sh'.target == sh.target)
    && (sh'.ret.InProgress? && (co'.pc.Leaving? || co'.pc.Done?) ==> sh.sectorNum >= Total(cfg) || co.pc.Leaving?)
  }

  lemma RequestAccounts(cfg: Config, sh: Shared, co: Co, i: nat, step: Step)
    requires ConfigOk(cfg) && SharedOk(cfg, sh) && Enabled(cfg, sh, co, step)
    requires !sh.ret.Success? && IsRequest(step)
    ensures var (sh', co') := Apply(cfg, sh, co, step); Accounts(cfg, sh, co, i, sh', co')
  {
  }

  lemma PreparationAccounts(cfg: Config, sh: Shared, co: Co, i: nat, step: Step)
    requires ConfigOk(cfg) && SharedOk(cfg, sh) && Enabled(cfg, sh, co, step)
    requires !sh.ret.Success? && IsPreparation(step)
    ensures var (sh', co') := Apply(cfg, sh, co, step); Accounts(cfg, sh, co, i, sh', co')
  {
  }

  lemma ApplyAccounts(cfg: Config, sh: Shared, co: Co, i: nat, step: Step)
    requires ConfigOk(cfg) && SharedOk(cfg, sh) && Enabled(cfg, sh, co, step)
    requires sh.ret.Success? ==> !Active(co) && !co.pc.Planning?
    requires co.pc.Planning? ==> sh.sectorNum < Total(cfg)
    ensures var (sh', co') := Apply(cfg, sh, co, step);
            Accounts(cfg, sh, co, i, if step.Lock? then sh'.(lock := Some(i)) else sh', co')
  {
    if IsRequest(step) {
      RequestAccounts(cfg, sh, co, i, step);
    } else if IsPreparation(step) {
      PreparationAccounts(cfg, sh, co, i, step);
    }
  }

  lemma StepAccounts(cfg: Config, s: State, s': State, i: nat, step: Step)
    requires ConfigOk(cfg) && Inv(cfg, s) && Next(cfg, s, s', i, step)
    ensures Accounts(cfg, s.sh, s.cos[i], i, s'.sh, s'.cos[i])
  {
    ApplyAccounts(cfg, s.sh, s.cos[i], i, step);
    var (sh, co) := Apply(cfg, s.sh, s.cos[i], step);
    assert s'.cos[i] == co && s'.sh == if step.Lock? then sh.(lock := Some(i)) else sh;
  }

  lemma LockKept(cfg: Config, s: State, i: nat, s': State)
    requires ConfigOk(cfg) && Inv(cfg, s) && i < |s.cos| && i < |s'.cos| && Moves(cfg, s, i, s')
    requires Accounts(cfg, s.sh, s.cos[i], i, s'.sh, s'.cos[i])
    ensures LockOk(cfg, s')
  {
    forall k | 0 <= k < |s'.cos| ensures HoldsLock(s'.cos[k]) <==> s'.sh.lock == Some(k) {
      assert HoldsLock(s.cos[k]) <==> s.sh.lock == Some(k);
      assert HoldsLock(s.cos[i]) <==> s.sh.lock == Some(i);
    }
    forall k | 0 <= k < |s'.cos| && s'.cos[k].pc.Planning? ensures s'.sh.sectorNum < Total(cfg) {
      assert HoldsLock(s'.cos[k]);
      assert HoldsLock(s.cos[i]) <==> s.sh.lock == Some(i);
    }
  }

  lemma LiveAfter(cfg: Config, s: State, i: nat, s': State)
    requires i < |s.cos| && i < |s'.cos| && Others(cfg, s.cos, i, s'.cos[i], s'.cos)
    ensures Live(s'.cos) - {i} == Live(s.cos) - {i}
  {
  }

  lemma CountAfter(cfg: Config, s: State, i: nat, s': State)
    requires i < |s.cos| && i < |s'.cos| && Others(cfg, s.cos, i, s'.cos[i], s'.cos)
    ensures |Live(s'.cos)| - (if IsLive(s'.cos[i]) then 1 else 0) == |Live(s.cos)| - (if IsLive(s.cos[i]) then 1 else 0)
  {
    LiveAfter(cfg, s, i, s');
    Without(Live(s.cos), i);
    Without(Live(s'.cos), i);
  }

  lemma Without(a: set<nat>, i: nat)
    ensures |a - {i}| == if i in a then |a| - 1 else |a|
  {
    if i !in a {
      assert a - {i} == a;
    }
  }

  lemma ReturnKept(cfg: Config, s: State, i: nat, s': State)
    requires ConfigOk(cfg) && Inv(cfg, s) && i < |s.cos| && i < |s'.cos| && Moves(cfg, s, i, s')
    requires Accounts(cfg, s.sh, s.cos[i], i, s'.sh, s'.cos[i])
    ensures ReturnOk(cfg, s')
  {
    CountAfter(cfg, s, i, s');
    if IsLive(s.cos[i]) {
      assert i in Live(s.cos);
    }
    if s'.sh.ret.Success? && s.sh.ret.InProgress? {
      forall k | 0 <= k < |s'.cos| ensures !IsLive(s'.cos[k]) {
        assert Live(s'.cos) == {};
        assert k !in Live(s'.cos);
      }
      forall k | 0 <= k < |s.cos| ensures !Active(s.cos[k]) {
        assert !IsLive(s'.cos[k]);
      }
      assert s.sh.sectorNum == Total(cfg);
    }
  }

  /** Every step keeps the invariant. */
  lemma NextKeeps(cfg: Config, s: State, s': State, i: nat, step: Step)
    requires ConfigOk(cfg) && Inv(cfg, s) && Next(cfg, s, s', i, step)
    ensures Inv(cfg, s')
  {
    NextMoves(cfg, s, s', i, step);
    StepAccounts(cfg, s, s', i, step);
    PiecesKept(cfg, s, i, s');
    LockKept(cfg, s, i, s');
    ChainKept(cfg, s, i, s');
    WaitKept(cfg, s, i, s');
    SectorsKept(cfg, s, i, s');
    ReturnKept(cfg, s, i, s');
  }

  ghost predicate CanNext(cfg: Config, s: State, s': State)
    requires ConfigOk(cfg)
  {
    exists i, step :: Next(cfg, s, s', i, step)
  }

  /** The states of a run, from the entry of the first coroutine on. */
  ghost predicate IsRun(cfg: Config, run: seq<State>)
    requires ConfigOk(cfg)
  {
    run != [] && Init(cfg, run[0]) && forall k :: 0 < k < |run| ==> CanNext(cfg, run[k - 1], run[k])
  }

  lemma {:induction false} RunKeeps(cfg: Config, run: seq<State>, k: nat)
    requires ConfigOk(cfg) && IsRun(cfg, run) && k < |run|
    ensures Inv(cfg, run[k])
  {
    if k == 0 {
      InitInv(cfg, run[0]);
    } else {
      RunKeeps(cfg, run, k - 1);
      assert CanNext(cfg, run[k - 1], run[k]);
      var i, step :| Next(cfg, run[k - 1], run[k], i, step);
      NextKeeps(cfg, run[k - 1], run[k], i, step);
    }
  }
}
