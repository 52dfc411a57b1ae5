/**
 Each of the three memory barriers of the exclusive-section handshake is needed:
 for every one of them there is a run of two CPUs that goes wrong without it.
 */
module ExclusiveBarriers {
  import opened Options
  import opened ExclusiveSection

  ghost predicate Reachable(fences: Fences, s: State) {
    exists run :: IsRun(fences, run) && run[|run| - 1] == s
  }

  lemma Extend(fences: Fences, s: State, c: Cpu, step: Step, s': State)
    requires Reachable(fences, s) && NextStep(fences, s, c, step, s')
    ensures Reachable(fences, s')
  {
    var run :| IsRun(fences, run) && run[|run| - 1] == s;
    var run' := run + [s'];
    assert Next(fences, s, s');
    forall i | 0 <= i < |run'| - 1 ensures Next(fences, run'[i], run'[i + 1]) {
      if i < |run| - 1 { assert Next(fences, run[i], run[i + 1]); }
    }
    assert IsRun(fences, run') && run'[|run'| - 1] == s';
  }

  /** A state with two CPUs. */
  function Two(l0: Local, l1: Local, pending: int, lock: Option<Cpu>): State {
    State(map[0 := l0, 1 := l1], pending, lock)
  }

  function At(pc: Pc, running: bool, hasWaiter: bool, buf: Buffer): Local {
    Local(pc, running, hasWaiter, 0, buf)
  }

  lemma TwoStart(fences: Fences)
    ensures Reachable(fences, Two(FRESH, FRESH, 0, None))
  {
    var run := [Two(FRESH, FRESH, 0, None)];
    assert IsRun(fences, run) && run[|run| - 1] == Two(FRESH, FRESH, 0, None);
  }

  function After(op: LockOp, c: Cpu, lock: Option<Cpu>): Option<Cpu> {
    match op case Keep => lock case Take => Some(c) case Drop => None
  }

  /** A statement or a call of CPU 0, with two CPUs. */
  lemma Run0(fences: Fences, l0: Local, l1: Local, pending: int, lock: Option<Cpu>, e: Effect)
    requires Reachable(fences, Two(l0, l1, pending, lock))
    requires || (e == Statement(fences, l0, LastPending(l0.buf, pending), {0, 1}) && l0.pc != EndCheck)
             || e == Call(l0, StartExclusiveSection)
    requires e.Go? && (e.op.Take? ==> lock == None)
    ensures Reachable(fences, Two(e.next, l1, pending, After(e.op, 0, lock)))
  {
    var s := Two(l0, l1, pending, lock);
    var s' := Two(e.next, l1, pending, After(e.op, 0, lock));
    assert s.cpus.Keys == {0, 1};
    assert Put(s, 0, e.next).cpus == s'.cpus;
    assert Apply(s, 0, e, s');
    Extend(fences, s, 0, if l0.pc == Outside then Enter(StartExclusiveSection) else Run, s');
  }

  /** A statement or a call of CPU 1. */
  lemma Run1(fences: Fences, l0: Local, l1: Local, pending: int, lock: Option<Cpu>, f: Function, e: Effect)
    requires Reachable(fences, Two(l0, l1, pending, lock))
    requires || (e == Statement(fences, l1, LastPending(l1.buf, pending), {0, 1}) && l1.pc != EndCheck && l1.pc != Outside && l1.pc != Executing)
             || (e == Call(l1, f) && (l1.pc == Outside || l1.pc == Executing))
    requires e.Go? && (e.op.Take? ==> lock == None)
    ensures Reachable(fences, Two(l0, e.next, pending, After(e.op, 1, lock)))
  {
    var s := Two(l0, l1, pending, lock);
    var s' := Two(l0, e.next, pending, After(e.op, 1, lock));
    assert s.cpus.Keys == {0, 1};
    assert Put(s, 1, e.next).cpus == s'.cpus;
    assert Apply(s, 1, e, s');
    Extend(fences, s, 1, if l1.pc == Outside || l1.pc == Executing then Enter(f) else Run, s');
  }

  /** CPU 0's oldest store, to pending_cpus, reaches memory. */
  lemma Drain0(fences: Fences, l0: Local, l1: Local, pending: int, lock: Option<Cpu>, v: int)
    requires Reachable(fences, Two(l0, l1, pending, lock))
    requires l0.buf.Push? && Oldest(l0.buf) == WPending(v)
    ensures Reachable(fences, Two(l0.(buf := DropOldest(l0.buf)), l1, v, lock))
  {
    var s := Two(l0, l1, pending, lock);
    var s' := Two(l0.(buf := DropOldest(l0.buf)), l1, v, lock);
    assert Put(s, 0, s'.cpus[0]).cpus == s'.cpus;
    Extend(fences, s, 0, Drain, s');
  }

  /** CPU 1's oldest store, to its running flag, reaches memory. */
  lemma Drain1(fences: Fences, l0: Local, l1: Local, pending: int, lock: Option<Cpu>, b: bool)
    requires Reachable(fences, Two(l0, l1, pending, lock))
    requires l1.buf.Push? && Oldest(l1.buf) == WRunning(b)
    ensures Reachable(fences, Two(l0, l1.(buf := DropOldest(l1.buf), running := b), pending, lock))
  {
    var s := Two(l0, l1, pending, lock);
    var s' := Two(l0, l1.(buf := DropOldest(l1.buf), running := b), pending, lock);
    assert Put(s, 1, s'.cpus[1]).cpus == s'.cpus;
    Extend(fences, s, 1, Drain, s');
  }

  /** CPU 0, not running itself, looks at its own flag and then at CPU 1's. */
  lemma ScanSelf(fences: Fences, buf: Buffer, l1: Local, pending: int)
    requires Reachable(fences, Two(At(ReqScan({0, 1}, 0), false, false, buf), l1, pending, Some(0)))
    requires !LastRunning(buf, false)
    ensures Reachable(fences, Two(At(ReqScan({1}, 0), false, false, buf), l1, pending, Some(0)))
  {
    var s := Two(At(ReqScan({0, 1}, 0), false, false, buf), l1, pending, Some(0));
    var m0 := At(ReqScan({1}, 0), false, false, buf);
    var t := Two(m0, l1, pending, Some(0));
    assert {0, 1} - {0} == {1};
    assert Put(s, 0, m0).cpus == t.cpus;
    Extend(fences, s, 0, Scan(0), t);
  }

  lemma ScanBoth(fences: Fences, buf: Buffer, l1: Local, pending: int)
    requires Reachable(fences, Two(At(ReqScan({0, 1}, 0), false, false, buf), l1, pending, Some(0)))
    requires !LastRunning(buf, false)
    ensures Reachable(fences, Two(At(ReqScan({}, if l1.running then 1 else 0), false, false, buf),
                                  if l1.running then l1.(hasWaiter := true) else l1, pending, Some(0)))
  {
    ScanSelf(fences, buf, l1, pending);
    var t := Two(At(ReqScan({1}, 0), false, false, buf), l1, pending, Some(0));
    var n0 := At(ReqScan({}, if l1.running then 1 else 0), false, false, buf);
    var n1 := if l1.running then l1.(hasWaiter := true) else l1;
    var u := Two(n0, n1, pending, Some(0));
    assert {1} - {1} == {};
    assert Put(Put(t, 0, n0), 1, n1).cpus == u.cpus;
    assert !l1.running ==> Put(t, 0, n0).cpus == u.cpus;
    Extend(fences, t, 0, Scan(1), u);
  }

  /** CPU 0's request up to its scan, with the store of 1 still in its buffer. */
  lemma Claim0(fences: Fences, l1: Local)
    requires Reachable(fences, Two(FRESH, l1, 0, None))
    ensures Reachable(fences, Two(At(ReqFence, false, false, Push(Empty, WPending(1))), l1, 0, Some(0)))
  {
    Run0(fences, FRESH, l1, 0, None, Call(FRESH, StartExclusiveSection));
    var l := At(ReqLock, false, false, Empty);
    Run0(fences, l, l1, 0, None, Acquire(l, ReqIdle));
    l := At(ReqIdle, false, false, Empty);
    Run0(fences, l, l1, 0, Some(0), Issue(l, WPending(1), ReqFence));
  }

  /** CPU 0's whole request up to the end of its scan, with its barrier. */
  lemma Request0(fences: Fences, l1: Local)
    requires Reachable(fences, Two(FRESH, l1, 0, None))
    ensures Reachable(fences, Two(At(ReqScan({}, if l1.running then 1 else 0), false, false, Empty),
                                  if l1.running then l1.(hasWaiter := true) else l1, 1, Some(0)))
  {
    Claim0(fences, l1);
    var l0 := At(ReqFence, false, false, Push(Empty, WPending(1)));
    Drain0(fences, l0, l1, 0, Some(0), 1);
    l0 := l0.(buf := Empty);
    Run0(fences, l0, l1, 1, Some(0), Goto(l0, ReqScan({0, 1}, 0)));
    ScanBoth(fences, Empty, l1, 1);
  }

  /** CPU 0 enters its section, having counted nobody. */
  lemma Enter0(fences: Fences, l1: Local)
    requires Reachable(fences, Two(At(ReqWait, false, false, Empty), l1, 1, Some(0)))
    ensures Reachable(fences, Two(FRESH.(depth := 1), l1, 1, None))
  {
    var l := At(ReqWait, false, false, Empty);
    Run0(fences, l, l1, 1, Some(0), Release(l, ReqEnter));
    l := At(ReqEnter, false, false, Empty);
    Run0(fences, l, l1, 1, None, Go(l.(pc := Outside, depth := 1), Keep));
  }

  /** CPU 1 enters cpu_exec_start and its store to `running` stays buffered. */
  lemma Start1(fences: Fences, l0: Local, lock: Option<Cpu>)
    requires Reachable(fences, Two(l0, FRESH, 0, lock))
    ensures Reachable(fences, Two(l0, At(StartFence, false, false, Push(Empty, WRunning(true))), 0, lock))
  {
    Run1(fences, l0, FRESH, 0, lock, CpuExecStart, Call(FRESH, CpuExecStart));
  }

  lemma Execute1(fences: Fences, l0: Local, l: Local, lock: Option<Cpu>)
    requires l.pc == StartFence && (fences.start ==> l.buf.Empty?) && LastPending(l.buf, 0) == 0
    requires Reachable(fences, Two(l0, l, 0, lock))
    ensures Reachable(fences, Two(l0, l.(pc := Executing), 0, lock))
  {
    Run1(fences, l0, l, 0, lock, CpuExecStart, Goto(l, StartRead));
    Run1(fences, l0, l.(pc := StartRead), 0, lock, CpuExecStart, Goto(l, Executing));
  }

  /** Without its barrier CPU 1 can execute while its store is in its buffer. */
  lemma HiddenStart(fences: Fences)
    requires !fences.start
    ensures Reachable(fences, Two(FRESH, At(Executing, false, false, Push(Empty, WRunning(true))), 0, None))
  {
    TwoStart(fences);
    Start1(fences, FRESH, None);
    Execute1(fences, FRESH, At(StartFence, false, false, Push(Empty, WRunning(true))), None);
  }

  /** CPU 0 stores how many CPUs it has counted, and itself. */
  lemma Counted0(fences: Fences, l1: Local, counted: nat)
    requires Reachable(fences, Two(At(ReqScan({}, counted), false, false, Empty), l1, 1, Some(0)))
    ensures Reachable(fences, Two(At(ReqWait, false, false, Empty), l1, counted + 1, Some(0)))
  {
    var l0 := At(ReqScan({}, counted), false, false, Empty);
    Run0(fences, l0, l1, 1, Some(0), Issue(l0, WPending(counted + 1), ReqWait));
    Drain0(fences, At(ReqWait, false, false, Push(Empty, WPending(counted + 1))), l1, 1, Some(0), counted + 1);
  }

  /** Without the barrier in cpu_exec_start exclusion fails: the requester does
      not see the CPU's store, nor the CPU the requester's. */
  lemma StartFenceNeeded() returns (s: State)
    ensures Reachable(Fences(true, false, true), s) && !Exclusion(s)
  {
    var fences := Fences(true, false, true);
    var l1 := At(Executing, false, false, Push(Empty, WRunning(true)));
    HiddenStart(fences);
    Request0(fences, l1);
    Counted0(fences, l1, 0);
    Enter0(fences, l1);
    s := Two(FRESH.(depth := 1), l1, 1, None);
    assert InSection(s.cpus[0]) && s.cpus[1].pc == Executing;
  }

  /** CPU 0 has scanned with its store of 1 still in its buffer; CPU 1 starts
      executing in the meantime. */
  lemma Overtake(fences: Fences, l0: Local)
    requires fences.start && Reachable(fences, Two(l0, FRESH, 0, Some(0)))
    ensures Reachable(fences, Two(l0, At(Executing, true, false, Empty), 0, Some(0)))
  {
    Start1(fences, l0, Some(0));
    Drain1(fences, l0, At(StartFence, false, false, Push(Empty, WRunning(true))), 0, Some(0), true);
    Execute1(fences, l0, At(StartFence, true, false, Empty), Some(0));
  }

  /** Without its barrier CPU 0 can scan with the store of 1 in its buffer. */
  lemma EarlyScan(fences: Fences)
    requires !fences.request
    ensures Reachable(fences, Two(At(ReqScan({}, 0), false, false, Push(Empty, WPending(1))), FRESH, 0, Some(0)))
  {
    TwoStart(fences);
    Claim0(fences, FRESH);
    var buf := Push(Empty, WPending(1));
    var l0 := At(ReqFence, false, false, buf);
    Run0(fences, l0, FRESH, 0, Some(0), Goto(l0, ReqScan({0, 1}, 0)));
    ScanBoth(fences, buf, FRESH, 0);
  }

  /** Without the barrier in start_exclusive exclusion fails too: the requester
      scans before its store of 1 is visible. */
  lemma RequestFenceNeeded() returns (s: State)
    ensures Reachable(Fences(false, true, true), s) && !Exclusion(s)
  {
    var fences := Fences(false, true, true);
    EarlyScan(fences);
    var buf := Push(Empty, WPending(1));
    var l0 := At(ReqScan({}, 0), false, false, buf);
    Overtake(fences, l0);
    var l1 := At(Executing, true, false, Empty);
    Run0(fences, l0, l1, 0, Some(0), Issue(l0, WPending(1), ReqWait));
    l0 := At(ReqWait, false, false, Push(buf, WPending(1)));
    Drain0(fences, l0, l1, 0, Some(0), 1);
    Drain0(fences, l0.(buf := buf), l1, 1, Some(0), 1);
    Enter0(fences, l1);
    s := Two(FRESH.(depth := 1), l1, 1, None);
    assert InSection(s.cpus[0]) && s.cpus[1].pc == Executing;
  }

  lemma Executing1(fences: Fences)
    ensures Reachable(fences, Two(FRESH, At(Executing, true, false, Empty), 0, None))
  {
    TwoStart(fences);
    Start1(fences, FRESH, None);
    Drain1(fences, FRESH, At(StartFence, false, false, Push(Empty, WRunning(true))), 0, None, true);
    Execute1(fences, FRESH, At(StartFence, true, false, Empty), None);
  }

  lemma Ending1(fences: Fences)
    ensures Reachable(fences, Two(FRESH, At(EndFence, true, false, Push(Empty, WRunning(false))), 0, None))
  {
    Executing1(fences);
    var l := At(Executing, true, false, Empty);
    Run1(fences, FRESH, l, 0, None, CpuExecEnd, Call(l, CpuExecEnd));
  }

  /** Without its barrier CPU 1 can leave cpu_exec_end while its store of false
      is buffered. */
  lemma Leave1(fences: Fences)
    requires !fences.end
    ensures Reachable(fences, Two(FRESH, At(Outside, true, false, Push(Empty, WRunning(false))), 0, None))
  {
    Ending1(fences);
    var l := At(EndFence, true, false, Push(Empty, WRunning(false)));
    Run1(fences, FRESH, l, 0, None, CpuExecEnd, Goto(l, EndRead));
    l := l.(pc := EndRead);
    Run1(fences, FRESH, l, 0, None, CpuExecEnd, Goto(l, Outside));
  }

  /** CPU 0 goes to sleep, having counted CPU 1. */
  lemma Sleep0(fences: Fences, l1: Local)
    requires Reachable(fences, Two(At(ReqScan({}, 1), false, false, Empty), l1, 1, Some(0)))
    ensures Reachable(fences, Two(At(ReqAsleep, false, false, Empty), l1, 2, None))
  {
    Counted0(fences, l1, 1);
    var l0 := At(ReqWait, false, false, Empty);
    Run0(fences, l0, l1, 2, Some(0), Release(l0, ReqAsleep));
  }

  /** CPU 0 sleeps on exclusive_cond and CPU 1, which it counts, is outside. */
  lemma Abandoned(fences: Fences)
    ensures var s := Two(At(ReqAsleep, false, false, Empty), At(Outside, false, true, Empty), 2, None);
            forall d <- s.cpus :: !Live(fences, s, d)
  {
  }

  /** Without the barrier in cpu_exec_end a requester can sleep for ever: it
      counts a CPU that has already looked at pending_cpus for the last time. */
  lemma EndFenceNeeded() returns (s: State)
    ensures Reachable(Fences(true, true, false), s)
    ensures Asleep(s, 0) && forall d <- s.cpus :: !Live(Fences(true, true, false), s, d)
  {
    var fences := Fences(true, true, false);
    Leave1(fences);
    var l1 := At(Outside, true, false, Push(Empty, WRunning(false)));
    Request0(fences, l1);
    l1 := l1.(hasWaiter := true);
    Sleep0(fences, l1);
    var l0 := At(ReqAsleep, false, false, Empty);
    Drain1(fences, l0, l1, 2, None, false);
    s := Two(l0, At(Outside, false, true, Empty), 2, None);
    Abandoned(fences);
  }
}
