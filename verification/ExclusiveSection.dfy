/**
 The handshake between `start_exclusive`/`end_exclusive` and
 `cpu_exec_start`/`cpu_exec_end`, as a transition system over any number of
 CPUs.

 Every CPU thread has a program counter, and every access to shared memory that
 happens outside the CPU list lock is a step of its own.  Memory is not
 sequentially consistent: each thread writes through a FIFO store buffer that
 drains into memory at arbitrary moments, and reads its own buffered values
 first.  A lock operation (and a condition wait, which releases the lock) needs
 an empty buffer.  So does each of the three `smp_mb()` calls; `Fences` can turn
 any of them into a no-op, which is used to show that all three are needed.
 */
module ExclusiveSection {
  import opened Options

  type Cpu = nat

  /** A store that has left the thread but has not reached memory. */
  datatype Write = WRunning(running: bool) | WPending(pending: int)

  /** A store buffer, newest store outermost. */
  datatype Buffer = Empty | Push(older: Buffer, newest: Write)

  datatype Pc =
    | Outside          // outside all four functions, perhaps inside an exclusive section
    // cpu_exec_start
    | StartFence       // running = true has been issued
    | StartRead        // about to read pending_cpus
    | StartLock        // about to take the lock
    | StartCheck       // lock held, about to look at has_waiter
    | StartIdle        // lock held, head of the exclusive_idle loop
    | StartParked      // asleep on exclusive_resume
    | StartWoken       // woken, about to retake the lock
    | StartUnlock      // lock held, about to release it and run
    | Executing        // between cpu_exec_start and cpu_exec_end
    // cpu_exec_end
    | EndFence         // running = false has been issued
    | EndRead          // about to read pending_cpus
    | EndLock          // about to take the lock
    | EndCheck         // lock held, about to look at has_waiter
    | EndUnlock        // lock held, about to release it
    // start_exclusive, outermost call
    | ReqLock          // about to take the lock
    | ReqIdle          // lock held, head of the exclusive_idle loop
    | ReqParked        // asleep on exclusive_resume
    | ReqWoken         // woken, about to retake the lock
    | ReqFence         // lock held, pending_cpus = 1 has been issued
    | ReqScan(todo: set<Cpu>, found: nat)  // lock held, CPU_FOREACH loop
    | ReqWait          // lock held, head of the `pending_cpus > 1` loop
    | ReqAsleep        // asleep on exclusive_cond
    | ReqAwake         // woken, about to retake the lock
    | ReqEnter         // lock released, about to set exclusive_context_count
    // end_exclusive, outermost call
    | RelLock          // about to take the lock
    | RelClear         // lock held, about to clear pending_cpus
    | RelUnlock        // lock held, about to release it

  /** One CPU: its flags in memory, its nesting depth
      (`exclusive_context_count`) and its store buffer. */
  datatype Local = Local(pc: Pc, running: bool, hasWaiter: bool, depth: nat, buf: Buffer)

  datatype State = State(cpus: map<Cpu, Local>, pending: int, lock: Option<Cpu>)

  /** Which of the memory barriers are present: the one in start_exclusive, the
      one in cpu_exec_start and the one in cpu_exec_end. */
  datatype Fences = Fences(request: bool, start: bool, end: bool)

  const ALL_FENCES := Fences(true, true, true)

  const FRESH := Local(Outside, false, false, 0, Empty)

  ghost predicate Init(s: State) {
    && (forall c <- s.cpus :: s.cpus[c] == FRESH)
    && s.pending == 0
    && s.lock == None
  }

  // ---- Memory ----------------------------------------------------------

  /** The value of pending_cpus that a thread with store buffer `buf` reads. */
  function LastPending(buf: Buffer, mem: int): int {
    match buf
    case Empty => mem
    case Push(older, WPending(v)) => v
    case Push(older, WRunning(_)) => LastPending(older, mem)
  }

  /** The value of its own `running` flag that a thread reads. */
  function LastRunning(buf: Buffer, mem: bool): bool {
    match buf
    case Empty => mem
    case Push(older, WRunning(b)) => b
    case Push(older, WPending(_)) => LastRunning(older, mem)
  }

  function Oldest(buf: Buffer): Write
    requires buf.Push?
  {
    if buf.older.Empty? then buf.newest else Oldest(buf.older)
  }

  function DropOldest(buf: Buffer): Buffer
    requires buf.Push?
  {
    if buf.older.Empty? then Empty else Push(DropOldest(buf.older), buf.newest)
  }

  function ReadPending(s: State, c: Cpu): int
    requires c in s.cpus
  {
    LastPending(s.cpus[c].buf, s.pending)
  }

  /** What thread `c` reads when it looks at CPU `d`'s `running` flag. */
  function ReadRunning(s: State, c: Cpu, d: Cpu): bool
    requires c in s.cpus && d in s.cpus
  {
    if c == d then LastRunning(s.cpus[c].buf, s.cpus[c].running) else s.cpus[d].running
  }

  // ---- The thread's own code -------------------------------------------

  datatype LockOp = Keep | Take | Drop

  /** The effect of the next statement on the thread that executes it: blocked,
      or a new local state and an operation on the CPU list lock. */
  datatype Effect = Blocked | Go(next: Local, op: LockOp)

  function Goto(l: Local, pc: Pc): Effect { Go(l.(pc := pc), Keep) }

  function Issue(l: Local, w: Write, pc: Pc): Effect {
    Go(l.(pc := pc, buf := Push(l.buf, w)), Keep)
  }

  function Acquire(l: Local, pc: Pc): Effect {
    if l.buf.Empty? then Go(l.(pc := pc), Take) else Blocked
  }

  function Release(l: Local, pc: Pc): Effect {
    if l.buf.Empty? then Go(l.(pc := pc), Drop) else Blocked
  }

  function Fence(fenced: bool, l: Local, pc: Pc): Effect {
    if fenced && !l.buf.Empty? then Blocked else Goto(l, pc)
  }

  /** The statements of cpu_exec_start; `read` is what a read of pending_cpus
      returns. */
  function ExecStart(fences: Fences, l: Local, read: int): Effect {
    match l.pc
    case StartFence => Fence(fences.start, l, StartRead)
    case StartRead => Goto(l, if read == 0 then Executing else StartLock)
    case StartLock => Acquire(l, StartCheck)
    case StartCheck => if l.hasWaiter then Goto(l, StartUnlock) else Issue(l, WRunning(false), StartIdle)
    case StartIdle => if read != 0 then Release(l, StartParked) else Issue(l, WRunning(true), StartUnlock)
    case StartWoken => Acquire(l, StartIdle)
    case StartUnlock => Release(l, Executing)
    case _ => Blocked
  }

  /** The statements of cpu_exec_end, except for a signal that wakes a sleeper. */
  function ExecEnd(fences: Fences, l: Local, read: int): Effect {
    match l.pc
    case EndFence => Fence(fences.end, l, EndRead)
    case EndRead => Goto(l, if read == 0 then Outside else EndLock)
    case EndLock => Acquire(l, EndCheck)
    case EndCheck => if l.hasWaiter then Go(Uncount(l, read), Keep) else Goto(l, EndUnlock)
    case EndUnlock => Release(l, Outside)
    case _ => Blocked
  }

  /** EndCheck with has_waiter set: the CPU stops being counted. */
  function Uncount(l: Local, read: int): Local {
    l.(pc := EndUnlock, hasWaiter := false, buf := Push(l.buf, WPending(read - 1)))
  }

  /** The statements of start_exclusive, except for the body of its scan;
      `all` are the CPUs on the list. */
  function StartExclusive(fences: Fences, l: Local, read: int, all: set<Cpu>): Effect {
    match l.pc
    case ReqLock => Acquire(l, ReqIdle)
    case ReqIdle => if read != 0 then Release(l, ReqParked) else Issue(l, WPending(1), ReqFence)
    case ReqWoken => Acquire(l, ReqIdle)
    case ReqFence => Fence(fences.request, l, ReqScan(all, 0))
    case ReqScan(todo, found) => if todo == {} then Issue(l, WPending(found + 1), ReqWait) else Blocked
    case ReqWait => Release(l, if read > 1 then ReqAsleep else ReqEnter)
    case ReqAwake => Acquire(l, ReqWait)
    case ReqEnter => Go(l.(pc := Outside, depth := 1), Keep)
    case _ => Blocked
  }

  /** The statements of end_exclusive, except for the broadcast. */
  function EndExclusive(l: Local): Effect {
    match l.pc
    case RelLock => Acquire(l, RelClear)
    case RelUnlock => Release(l, Outside)
    case _ => Blocked
  }

  function Statement(fences: Fences, l: Local, read: int, all: set<Cpu>): Effect {
    match l.pc
    case StartFence | StartRead | StartLock | StartCheck | StartIdle | StartWoken | StartUnlock =>
      ExecStart(fences, l, read)
    case EndFence | EndRead | EndLock | EndCheck | EndUnlock =>
      ExecEnd(fences, l, read)
    case RelLock | RelUnlock =>
      EndExclusive(l)
    case _ =>
      StartExclusive(fences, l, read, all)
  }

  /** The four functions' entries.  Callers' duties: cpu_exec_start and
      start_exclusive are called from outside cpu_exec, and no CPU executes
      guest code in its own section. */
  function Call(l: Local, f: Function): Effect {
    match f
    case CpuExecStart =>
      if l.pc == Outside && l.depth == 0 then Issue(l, WRunning(true), StartFence) else Blocked
    case CpuExecEnd =>
      if l.pc == Executing then Issue(l, WRunning(false), EndFence) else Blocked
    case StartExclusiveSection =>
      if l.pc != Outside then Blocked
      else if l.depth > 0 then Go(l.(depth := l.depth + 1), Keep)
      else Goto(l, ReqLock)
    case EndExclusiveSection =>
      if l.pc != Outside || l.depth == 0 then Blocked
      else if l.depth > 1 then Go(l.(depth := l.depth - 1), Keep)
      else Go(l.(depth := 0, pc := RelLock), Keep)
  }

  datatype Function = CpuExecStart | CpuExecEnd | StartExclusiveSection | EndExclusiveSection

  // ---- Steps of the whole system ---------------------------------------

  datatype Step =
    | Run                  // the next statement of the function the thread is in
    | Enter(f: Function)
    | Drain                // the oldest buffered store reaches memory
    | Wake                 // a spurious wake-up, which condition variables permit
    | Scan(other: Cpu)     // one iteration of the CPU_FOREACH loop
    | Signal(sleeper: Cpu) // EndCheck that wakes one thread on exclusive_cond
    | Broadcast            // RelClear: pending_cpus = 0 and wake exclusive_resume
    | AddCpu               // cpu_list_add
    | RemoveCpu            // cpu_list_remove

  function Put(s: State, c: Cpu, l: Local): State {
    s.(cpus := s.cpus[c := l])
  }

  ghost predicate Apply(s: State, c: Cpu, e: Effect, s': State) {
    && e.Go?
    && match e.op {
         case Keep => s' == Put(s, c, e.next)
         case Take => s.lock == None && s' == Put(s, c, e.next).(lock := Some(c))
         case Drop => s' == Put(s, c, e.next).(lock := None)
       }
  }

  ghost predicate Asleep(s: State, d: Cpu) {
    d in s.cpus && s.cpus[d].pc == ReqAsleep
  }

  /** The statement is the decrement to 1, which signals exclusive_cond. */
  predicate Signals(l: Local, read: int) {
    l.pc == EndCheck && l.hasWaiter && read - 1 == 1
  }

  ghost predicate RunStep(fences: Fences, s: State, c: Cpu, s': State)
    requires c in s.cpus
  {
    // a signal with a sleeper to wake is the Signal step
    && (Signals(s.cpus[c], ReadPending(s, c)) ==> forall d <- s.cpus :: !Asleep(s, d))
    && Apply(s, c, Statement(fences, s.cpus[c], ReadPending(s, c), s.cpus.Keys), s')
  }

  ghost predicate SignalStep(s: State, c: Cpu, d: Cpu, s': State)
    requires c in s.cpus
  {
    && Signals(s.cpus[c], ReadPending(s, c))
    && Asleep(s, d)
    && s' == Put(Put(s, c, Uncount(s.cpus[c], ReadPending(s, c))), d, s.cpus[d].(pc := ReqAwake))
  }

  ghost predicate DrainStep(s: State, c: Cpu, s': State)
    requires c in s.cpus
  {
    var l := s.cpus[c];
    && l.buf.Push?
    && match Oldest(l.buf) {
         case WRunning(b) => s' == Put(s, c, l.(running := b, buf := DropOldest(l.buf)))
         case WPending(v) => s' == Put(s, c, l.(buf := DropOldest(l.buf))).(pending := v)
       }
  }

  ghost predicate ScanStep(s: State, c: Cpu, d: Cpu, s': State)
    requires c in s.cpus
  {
    var l := s.cpus[c];
    && l.pc.ReqScan?
    && d in l.pc.todo && d in s.cpus
    && if ReadRunning(s, c, d) then
         var t := Put(s, c, l.(pc := ReqScan(l.pc.todo - {d}, l.pc.found + 1)));
         s' == Put(t, d, t.cpus[d].(hasWaiter := true))
       else
         s' == Put(s, c, l.(pc := ReqScan(l.pc.todo - {d}, l.pc.found)))
  }

  function Woken(l: Local): Local {
    match l.pc
    case StartParked => l.(pc := StartWoken)
    case ReqParked => l.(pc := ReqWoken)
    case _ => l
  }

  ghost predicate WakeStep(s: State, c: Cpu, s': State)
    requires c in s.cpus
  {
    var l := s.cpus[c];
    if l.pc == ReqAsleep then s' == Put(s, c, l.(pc := ReqAwake))
    else (l.pc == StartParked || l.pc == ReqParked) && s' == Put(s, c, Woken(l))
  }

  ghost predicate BroadcastStep(s: State, c: Cpu, s': State)
    requires c in s.cpus
  {
    var l := s.cpus[c];
    && l.pc == RelClear
    && var t := Put(s, c, l.(pc := RelUnlock, buf := Push(l.buf, WPending(0))));
       s' == t.(cpus := map d | d in t.cpus :: Woken(t.cpus[d]))
  }

  ghost predicate NextStep(fences: Fences, s: State, c: Cpu, step: Step, s': State) {
    if step.AddCpu? then
      c !in s.cpus && s.lock == None && s' == Put(s, c, FRESH)
    else
      && c in s.cpus
      && var l := s.cpus[c];
         match step
         case Run => RunStep(fences, s, c, s')
         case Enter(f) => Apply(s, c, Call(l, f), s')
         case Drain => DrainStep(s, c, s')
         case Wake => WakeStep(s, c, s')
         case Scan(d) => ScanStep(s, c, d, s')
         case Signal(d) => SignalStep(s, c, d, s')
         case Broadcast => BroadcastStep(s, c, s')
         case RemoveCpu =>
           && l.pc == Outside && l.depth == 0 && l.buf.Empty? && s.lock == None
           && s' == s.(cpus := s.cpus - {c})
  }

  ghost predicate Next(fences: Fences, s: State, s': State) {
    exists c, step :: NextStep(fences, s, c, step, s')
  }

  ghost predicate IsRun(fences: Fences, run: seq<State>) {
    && run != []
    && Init(run[0])
    && forall i :: 0 <= i < |run| - 1 ==> Next(fences, run[i], run[i + 1])
  }

  // ---- What is promised ------------------------------------------------

  predicate InSection(l: Local) { l.depth > 0 }

  /** While a thread is between start_exclusive and end_exclusive, no CPU is
      executing and no other thread is in a section of its own. */
  ghost predicate Exclusion(s: State) {
    forall c <- s.cpus :: InSection(s.cpus[c]) ==>
      && (forall d <- s.cpus :: s.cpus[d].pc != Executing)
      && (forall d <- s.cpus :: InSection(s.cpus[d]) ==> d == c)
  }

  // ---- Invariant -------------------------------------------------------

  predicate HoldsLock(pc: Pc) {
    || pc.StartCheck? || pc.StartIdle? || pc.StartUnlock? || pc.EndCheck? || pc.EndUnlock?
    || pc.ReqIdle? || pc.ReqFence? || pc.ReqScan? || pc.ReqWait? || pc.RelClear? || pc.RelUnlock?
  }

  /** From issuing pending_cpus = 1 until issuing pending_cpus = 0. */
  predicate Owns(l: Local) {
    || l.pc.ReqFence? || l.pc.ReqScan? || l.pc.ReqWait? || l.pc.ReqAsleep? || l.pc.ReqAwake?
    || l.pc.ReqEnter? || l.pc.RelLock? || l.pc.RelClear?
    || l.depth > 0
  }

  /** A CPU that is running, or holds the lock and will run without looking at
      pending_cpus again. */
  predicate Active(pc: Pc) { pc == Executing || pc == StartUnlock }

  /** Where a CPU counted in pending_cpus can be.  None of these waits on a
      condition variable, and all lead to EndCheck, which uncounts it. */
  predicate Counted(pc: Pc) {
    || pc.StartFence? || pc.StartRead? || pc.StartLock? || pc.StartCheck? || pc.StartUnlock? || pc.Executing?
    || pc.EndFence? || pc.EndRead? || pc.EndLock? || pc.EndCheck?
  }

  /** What the store buffer and the `running` flag are at each point. */
  predicate LocalOk(l: Local) {
    match l.pc
    case Outside => !l.running && l.buf.Empty?
    case StartFence => (!l.running && l.buf == Push(Empty, WRunning(true))) || (l.running && l.buf.Empty?)
    case StartRead => l.running && l.buf.Empty?
    case StartLock => l.running && l.buf.Empty?
    case StartCheck => l.running && l.buf.Empty?
    case StartIdle => (l.running && l.buf == Push(Empty, WRunning(false))) || (!l.running && l.buf.Empty?)
    case StartParked => !l.running && l.buf.Empty?
    case StartWoken => !l.running && l.buf.Empty?
    case StartUnlock =>
      || (l.running && l.buf == Push(Push(Empty, WRunning(false)), WRunning(true)))
      || (!l.running && l.buf == Push(Empty, WRunning(true)))
      || (l.running && l.buf.Empty?)
    case Executing => l.running && l.buf.Empty?
    case EndFence => (l.running && l.buf == Push(Empty, WRunning(false))) || (!l.running && l.buf.Empty?)
    case EndUnlock => !l.running && (l.buf.Empty? || (l.buf.Push? && l.buf.older.Empty? && l.buf.newest.WPending?))
    case ReqFence => !l.running && (l.buf.Empty? || l.buf == Push(Empty, WPending(1)))
    case ReqWait => !l.running && (l.buf.Empty? || (l.buf.Push? && l.buf.older.Empty? && l.buf.newest.WPending?))
    case RelUnlock => !l.running && (l.buf.Empty? || l.buf == Push(Empty, WPending(0)))
    case _ => !l.running && l.buf.Empty?
  }

  function Waiters(s: State): set<Cpu> {
    set c | c in s.cpus && s.cpus[c].hasWaiter
  }

  /** pending_cpus as the lock holder sees it. */
  function Logical(s: State): int {
    if s.lock.Some? && s.lock.value in s.cpus then ReadPending(s, s.lock.value) else s.pending
  }

  /** An owner whose program counter is `pc` has already looked at CPU `d`. */
  predicate Seen(pc: Pc, d: Cpu) {
    !pc.ReqFence? && (pc.ReqScan? ==> d !in pc.todo)
  }

  /** What the invariant of one CPU needs to know about the rest of the state. */
  datatype View = View(locked: bool, owns: bool, owned: bool, seen: bool)

  function ViewOf(s: State, o: Option<Cpu>, c: Cpu): View {
    View(s.lock == Some(c), o == Some(c), o.Some?,
         o.Some? && o.value in s.cpus && Seen(s.cpus[o.value].pc, c))
  }

  predicate LocalInv(l: Local, v: View) {
    && LocalOk(l)
    && (HoldsLock(l.pc) <==> v.locked)
    && (Owns(l) <==> v.owns)
    && (l.depth > 0 ==> l.pc == Outside)
    && (l.hasWaiter ==> Counted(l.pc) && v.seen)
    && (v.seen && !l.hasWaiter ==> !Active(l.pc))
    && (l.pc == StartParked || l.pc == ReqParked ==> v.owned)
  }

  ghost predicate CpuOk(s: State, o: Option<Cpu>, c: Cpu)
    requires c in s.cpus
  {
    LocalInv(s.cpus[c], ViewOf(s, o, c))
  }

  /** pending_cpus against the number of counted CPUs: `mem` is its value in
      memory and `logical` its value for the holder of the lock. */
  predicate OwnerCount(l: Local, mem: int, logical: int, waiters: nat) {
    if l.pc == ReqFence then
      waiters == 0 && logical == 1
    else
      && mem >= 1
      && (if l.pc.ReqScan? then waiters == l.pc.found && mem == 1 else logical == 1 + waiters)
      && (l.pc == ReqAsleep ==> waiters > 0)
      && (l.pc == ReqEnter || l.pc == RelLock || l.pc == RelClear || l.depth > 0 ==> waiters == 0)
  }

  ghost predicate CountOk(s: State, o: Option<Cpu>) {
    && (s.lock.Some? ==> s.lock.value in s.cpus)
    && match o
       case None => Waiters(s) == {} && Logical(s) == 0
       case Some(c) =>
         && c in s.cpus
         && (s.cpus[c].pc.ReqScan? ==> s.cpus[c].pc.todo <= s.cpus.Keys)
         && OwnerCount(s.cpus[c], s.pending, Logical(s), |Waiters(s)|)
  }

  ghost predicate InvFor(s: State, o: Option<Cpu>) {
    CountOk(s, o) && forall c <- s.cpus :: CpuOk(s, o, c)
  }

  ghost predicate Inv(s: State) {
    exists o :: InvFor(s, o)
  }

  lemma InvGivesExclusion(s: State)
    requires Inv(s)
    ensures Exclusion(s)
  {
    var o :| InvFor(s, o);
    forall c <- s.cpus | InSection(s.cpus[c])
      ensures forall d <- s.cpus :: s.cpus[d].pc != Executing
      ensures forall d <- s.cpus :: InSection(s.cpus[d]) ==> d == c
    {
      assert CpuOk(s, o, c);
      forall d <- s.cpus
        ensures s.cpus[d].pc != Executing
        ensures InSection(s.cpus[d]) ==> d == c
      {
        assert CpuOk(s, o, d);
        assert d !in Waiters(s);
      }
    }
  }

  lemma InitInv(s: State)
    requires Init(s)
    ensures Inv(s)
  {
    assert InvFor(s, None);
  }

  // ---- Every step keeps the invariant ----------------------------------

  function LockedAfter(locked: bool, op: LockOp): bool {
    op.Take? || (op.Keep? && locked)
  }

  /** What a thread can rely on when it reads pending_cpus: it is not zero once
      an owner has looked at this CPU, and under the lock it is not zero only if
      there is an owner. */
  predicate ReadOk(v: View, read: int) {
    && (v.seen ==> read >= 1)
    && (v.locked && read != 0 ==> v.owned)
  }

  /** An effect that keeps the thread's own invariant and does not touch the
      count: a jump, a lock operation or a store to `running`. */
  predicate Quiet(l: Local, v: View, mem: int, e: Effect) {
    && e.Go?
    && LocalInv(e.next, v.(locked := LockedAfter(v.locked, e.op)))
    && e.next.hasWaiter == l.hasWaiter
    && LastPending(e.next.buf, mem) == LastPending(l.buf, mem)
    && (!e.op.Keep? ==> l.buf.Empty?)
    && (e.op.Drop? ==> v.locked)
  }

  lemma ExecStartLocal(l: Local, v: View, mem: int, e: Effect)
    requires LocalInv(l, v) && ReadOk(v, LastPending(l.buf, mem))
    requires e == ExecStart(ALL_FENCES, l, LastPending(l.buf, mem)) && e.Go? && (e.op.Take? ==> !v.locked)
    ensures Quiet(l, v, mem, e) && !v.owns
  {
  }

  lemma ExecEndLocal(l: Local, v: View, mem: int, e: Effect)
    requires LocalInv(l, v) && ReadOk(v, LastPending(l.buf, mem))
    requires e == ExecEnd(ALL_FENCES, l, LastPending(l.buf, mem)) && e.Go? && (e.op.Take? ==> !v.locked)
    requires !(l.pc == EndCheck && l.hasWaiter)
    ensures Quiet(l, v, mem, e) && !v.owns
  {
  }

  /** A step of `c` that changes only `c`, the lock and pending_cpus, and that
      changes neither the owner nor what the owner has seen. */
  lemma OthersKeep(s: State, o: Option<Cpu>, c: Cpu, s': State)
    requires InvFor(s, o) && c in s.cpus && c in s'.cpus && s'.cpus == s.cpus[c := s'.cpus[c]]
    requires s'.lock == s.lock || (s.lock == None && s'.lock == Some(c)) || (s.lock == Some(c) && s'.lock == None)
    requires o == Some(c) ==> forall d <- s.cpus :: Seen(s'.cpus[c].pc, d) == Seen(s.cpus[c].pc, d)
    ensures forall d <- s'.cpus :: d != c ==> CpuOk(s', o, d)
    ensures ViewOf(s', o, c) == ViewOf(s, o, c).(locked := s'.lock == Some(c))
  {
    forall d <- s'.cpus | d != c ensures CpuOk(s', o, d) {
      assert CpuOk(s, o, d);
      assert ViewOf(s', o, d) == ViewOf(s, o, d);
    }
  }

  /** With the invariant, the lock holder is the only thread with a pending
      count in its buffer, so everyone else reads memory. */
  lemma LogicalIsRead(s: State, o: Option<Cpu>, c: Cpu)
    requires InvFor(s, o) && c in s.cpus
    ensures s.lock == Some(c) ==> Logical(s) == ReadPending(s, c)
    ensures s.lock == None ==> Logical(s) == s.pending
    ensures s.lock != Some(c) ==> ReadPending(s, c) == s.pending
  {
    assert CpuOk(s, o, c);
    assert LastPending(Empty, s.pending) == s.pending;
  }

  lemma ReadIsOk(s: State, o: Option<Cpu>, c: Cpu)
    requires InvFor(s, o) && c in s.cpus
    ensures ReadOk(ViewOf(s, o, c), ReadPending(s, c))
  {
    LogicalIsRead(s, o, c);
    if o.Some? && s.lock == Some(c) {
      assert CpuOk(s, o, c) && CpuOk(s, o, o.value);
    }
  }

  /** A quiet effect leaves the count alone. */
  lemma QuietLogical(s: State, o: Option<Cpu>, c: Cpu, e: Effect, s': State)
    requires c in s.cpus && Quiet(s.cpus[c], ViewOf(s, o, c), s.pending, e) && Apply(s, c, e, s')
    ensures Waiters(s') == Waiters(s) && Logical(s') == Logical(s)
  {
    assert ReadPending(s, c) == LastPending(s.cpus[c].buf, s.pending);
  }

  /** A quiet effect keeps the invariant, if it respects the owner's duties when
      the thread is the owner. */
  lemma QuietKeeps(s: State, o: Option<Cpu>, c: Cpu, e: Effect, s': State)
    requires InvFor(s, o) && c in s.cpus
    requires Quiet(s.cpus[c], ViewOf(s, o, c), s.pending, e) && Apply(s, c, e, s')
    requires o == Some(c) ==>
               && (forall d <- s.cpus :: Seen(e.next.pc, d) == Seen(s.cpus[c].pc, d))
               && OwnerCount(e.next, s.pending, Logical(s), |Waiters(s)|)
               && (e.next.pc.ReqScan? ==> e.next.pc.todo <= s.cpus.Keys)
    ensures InvFor(s', o)
  {
    QuietLogical(s, o, c, e, s');
    OthersKeep(s, o, c, s');
  }

  lemma ExecStartKeeps(s: State, o: Option<Cpu>, c: Cpu, e: Effect, s': State)
    requires InvFor(s, o) && c in s.cpus
    requires e == ExecStart(ALL_FENCES, s.cpus[c], ReadPending(s, c)) && Apply(s, c, e, s')
    ensures InvFor(s', o)
  {
    assert CpuOk(s, o, c);
    ReadIsOk(s, o, c);
    ExecStartLocal(s.cpus[c], ViewOf(s, o, c), s.pending, e);
    QuietKeeps(s, o, c, e, s');
  }

  lemma ExecEndKeeps(s: State, o: Option<Cpu>, c: Cpu, e: Effect, s': State)
    requires InvFor(s, o) && c in s.cpus && !(s.cpus[c].pc == EndCheck && s.cpus[c].hasWaiter)
    requires e == ExecEnd(ALL_FENCES, s.cpus[c], ReadPending(s, c)) && Apply(s, c, e, s')
    ensures InvFor(s', o)
  {
    assert CpuOk(s, o, c);
    ReadIsOk(s, o, c);
    ExecEndLocal(s.cpus[c], ViewOf(s, o, c), s.pending, e);
    QuietKeeps(s, o, c, e, s');
  }

  lemma CallLocal(l: Local, v: View, mem: int, f: Function, e: Effect)
    requires LocalInv(l, v) && e == Call(l, f) && e.Go?
    ensures Quiet(l, v, mem, e)
    ensures v.owns ==> l.pc == Outside && l.depth > 0 && (e.next.depth > 0 || e.next.pc == RelLock)
    ensures !e.next.pc.ReqScan? && !e.next.pc.ReqFence? && e.next.pc != ReqAsleep
  {
  }

  lemma CallKeeps(s: State, o: Option<Cpu>, c: Cpu, f: Function, s': State)
    requires InvFor(s, o) && c in s.cpus && Apply(s, c, Call(s.cpus[c], f), s')
    ensures InvFor(s', o)
  {
    assert CpuOk(s, o, c);
    CallLocal(s.cpus[c], ViewOf(s, o, c), s.pending, f, Call(s.cpus[c], f));
    QuietKeeps(s, o, c, Call(s.cpus[c], f), s');
  }

  lemma WakeLocal(l: Local, v: View, mem: int, l': Local)
    requires LocalInv(l, v)
    requires (l.pc == ReqAsleep && l' == l.(pc := ReqAwake)) || ((l.pc == StartParked || l.pc == ReqParked) && l' == Woken(l))
    ensures Quiet(l, v, mem, Go(l', Keep))
  {
  }

  lemma WakeKeeps(s: State, o: Option<Cpu>, c: Cpu, s': State)
    requires InvFor(s, o) && c in s.cpus && WakeStep(s, c, s')
    ensures InvFor(s', o)
  {
    assert CpuOk(s, o, c);
    WakeLocal(s.cpus[c], ViewOf(s, o, c), s.pending, s'.cpus[c]);
    QuietKeeps(s, o, c, Go(s'.cpus[c], Keep), s');
  }

  /** The statements of start_exclusive and end_exclusive that neither write
      pending_cpus nor touch the scan. */
  predicate QuietSection(l: Local, read: int) {
    !(l.pc.ReqIdle? && read == 0) && !l.pc.ReqFence? && !l.pc.ReqScan?
  }

  lemma SectionLocal(l: Local, v: View, mem: int, all: set<Cpu>, e: Effect)
    requires LocalInv(l, v) && ReadOk(v, LastPending(l.buf, mem)) && QuietSection(l, LastPending(l.buf, mem))
    requires e == StartExclusive(ALL_FENCES, l, LastPending(l.buf, mem), all) || e == EndExclusive(l)
    requires e.Go? && (e.op.Take? ==> !v.locked)
    ensures Quiet(l, v, mem, e)
    ensures !e.next.pc.ReqScan? && !e.next.pc.ReqFence?
  {
  }

  /** The owner leaves the wait only when nobody is counted. */
  lemma SectionCount(l: Local, v: View, mem: int, all: set<Cpu>, logical: int, waiters: nat, e: Effect)
    requires LocalInv(l, v) && v.owns && QuietSection(l, LastPending(l.buf, mem))
    requires OwnerCount(l, mem, logical, waiters) && (v.locked ==> logical == LastPending(l.buf, mem))
    requires e == StartExclusive(ALL_FENCES, l, LastPending(l.buf, mem), all) || e == EndExclusive(l)
    requires e.Go? && (e.op.Take? ==> !v.locked)
    ensures OwnerCount(e.next, mem, logical, waiters)
  {
  }

  lemma SectionKeeps(s: State, o: Option<Cpu>, c: Cpu, e: Effect, s': State)
    requires InvFor(s, o) && c in s.cpus && QuietSection(s.cpus[c], ReadPending(s, c))
    requires e == StartExclusive(ALL_FENCES, s.cpus[c], ReadPending(s, c), s.cpus.Keys) || e == EndExclusive(s.cpus[c])
    requires Apply(s, c, e, s')
    ensures InvFor(s', o)
  {
    assert CpuOk(s, o, c);
    ReadIsOk(s, o, c);
    LogicalIsRead(s, o, c);
    SectionLocal(s.cpus[c], ViewOf(s, o, c), s.pending, s.cpus.Keys, e);
    if o == Some(c) {
      SectionCount(s.cpus[c], ViewOf(s, o, c), s.pending, s.cpus.Keys, Logical(s), |Waiters(s)|, e);
    }
    QuietKeeps(s, o, c, e, s');
  }

  /** The owner writes pending_cpus = 1. */
  lemma ClaimKeeps(s: State, o: Option<Cpu>, c: Cpu, s': State)
    requires InvFor(s, o) && c in s.cpus && s.cpus[c].pc == ReqIdle && ReadPending(s, c) == 0
    requires Apply(s, c, StartExclusive(ALL_FENCES, s.cpus[c], ReadPending(s, c), s.cpus.Keys), s')
    ensures o == None && InvFor(s', Some(c))
  {
    assert CpuOk(s, o, c);
    LogicalIsRead(s, o, c);
    assert Waiters(s') == Waiters(s);
    forall d <- s'.cpus ensures CpuOk(s', Some(c), d) {
      assert CpuOk(s, o, d);
    }
  }

  lemma FenceKeeps(s: State, o: Option<Cpu>, c: Cpu, s': State)
    requires InvFor(s, o) && c in s.cpus && s.cpus[c].pc == ReqFence
    requires Apply(s, c, StartExclusive(ALL_FENCES, s.cpus[c], ReadPending(s, c), s.cpus.Keys), s')
    ensures InvFor(s', o)
  {
    assert CpuOk(s, o, c);
    LogicalIsRead(s, o, c);
    QuietKeeps(s, o, c, StartExclusive(ALL_FENCES, s.cpus[c], ReadPending(s, c), s.cpus.Keys), s');
  }

  /** The owner writes the final count. */
  lemma ScanEndKeeps(s: State, o: Option<Cpu>, c: Cpu, s': State)
    requires InvFor(s, o) && c in s.cpus && s.cpus[c].pc.ReqScan?
    requires Apply(s, c, StartExclusive(ALL_FENCES, s.cpus[c], ReadPending(s, c), s.cpus.Keys), s')
    ensures InvFor(s', o)
  {
    assert CpuOk(s, o, c);
    LogicalIsRead(s, o, c);
    OthersKeep(s, o, c, s');
    assert Waiters(s') == Waiters(s);
  }

  lemma DrainLocal(l: Local, v: View, l': Local)
    requires LocalInv(l, v) && l.buf.Push?
    requires l' == l.(buf := DropOldest(l.buf), running := if Oldest(l.buf).WRunning? then Oldest(l.buf).running else l.running)
    ensures LocalInv(l', v)
    ensures Oldest(l.buf).WPending? ==> v.locked && l.buf == Push(Empty, Oldest(l.buf))
    ensures Oldest(l.buf).WRunning? ==> forall m :: LastPending(l'.buf, m) == LastPending(l.buf, m)
  {
  }

  lemma DrainRunningKeeps(s: State, o: Option<Cpu>, c: Cpu, s': State)
    requires InvFor(s, o) && c in s.cpus && DrainStep(s, c, s') && Oldest(s.cpus[c].buf).WRunning?
    ensures InvFor(s', o)
  {
    assert CpuOk(s, o, c);
    DrainLocal(s.cpus[c], ViewOf(s, o, c), s'.cpus[c]);
    var e := Go(s'.cpus[c], Keep);
    assert Quiet(s.cpus[c], ViewOf(s, o, c), s.pending, e);
    QuietKeeps(s, o, c, e, s');
  }

  lemma DrainPendingCount(s: State, o: Option<Cpu>, c: Cpu, s': State)
    requires InvFor(s, o) && c in s.cpus && DrainStep(s, c, s') && Oldest(s.cpus[c].buf).WPending?
    ensures Waiters(s') == Waiters(s) && Logical(s') == Logical(s) == s'.pending
  {
    assert CpuOk(s, o, c);
    DrainLocal(s.cpus[c], ViewOf(s, o, c), s'.cpus[c]);
  }

  lemma DrainPendingKeeps(s: State, o: Option<Cpu>, c: Cpu, s': State)
    requires InvFor(s, o) && c in s.cpus && DrainStep(s, c, s') && Oldest(s.cpus[c].buf).WPending?
    ensures InvFor(s', o)
  {
    assert CpuOk(s, o, c);
    DrainLocal(s.cpus[c], ViewOf(s, o, c), s'.cpus[c]);
    DrainPendingCount(s, o, c, s');
    OthersKeep(s, o, c, s');
  }

  /** What a counted lock holder knows: there is an owner, it is someone else,
      and the count it reads includes itself. */
  lemma CountedRead(s: State, o: Option<Cpu>, c: Cpu)
    requires InvFor(s, o) && c in s.cpus && s.cpus[c].pc == EndCheck && s.cpus[c].hasWaiter
    ensures s.lock == Some(c) && s.cpus[c].buf.Empty? && c in Waiters(s)
    ensures o.Some? && o.value != c && !s.cpus[o.value].pc.ReqFence? && !s.cpus[o.value].pc.ReqScan?
    ensures ReadPending(s, c) == Logical(s) == s.pending == 1 + |Waiters(s)|
  {
    assert CpuOk(s, o, c);
    assert CpuOk(s, o, o.value);
  }

  /** A lock holder that stops being counted. */
  lemma UncountKeeps(s: State, o: Option<Cpu>, c: Cpu, s': State)
    requires InvFor(s, o) && c in s.cpus && s.cpus[c].pc == EndCheck && s.cpus[c].hasWaiter
    requires Signals(s.cpus[c], ReadPending(s, c)) ==> forall d <- s.cpus :: !Asleep(s, d)
    requires s' == Put(s, c, Uncount(s.cpus[c], ReadPending(s, c)))
    ensures InvFor(s', o)
  {
    CountedRead(s, o, c);
    assert CpuOk(s, o, c);
    OthersKeep(s, o, c, s');
    assert CpuOk(s', o, c);
    assert Waiters(s') == Waiters(s) - {c};
    assert Logical(s') == 1 + |Waiters(s')|;
    assert Asleep(s, o.value) ==> |Waiters(s)| > 1;
  }

  lemma PutCommutes(s: State, c: Cpu, l: Local, d: Cpu, m: Local)
    requires c != d
    ensures Put(Put(s, c, l), d, m) == Put(Put(s, d, m), c, l)
  {
    assert s.cpus[c := l][d := m] == s.cpus[d := m][c := l];
  }

  lemma NoSleeperLeft(s: State, o: Option<Cpu>, d: Cpu)
    requires InvFor(s, o) && Asleep(s, d)
    ensures var t := Put(s, d, s.cpus[d].(pc := ReqAwake)); forall e <- t.cpus :: !Asleep(t, e)
  {
    SoleSleeper(s, o, d);
    var t := Put(s, d, s.cpus[d].(pc := ReqAwake));
    forall e <- t.cpus ensures !Asleep(t, e) {
      assert Asleep(t, e) ==> Asleep(s, e);
    }
  }

  lemma SignalKeeps(s: State, o: Option<Cpu>, c: Cpu, d: Cpu, s': State)
    requires InvFor(s, o) && c in s.cpus && SignalStep(s, c, d, s')
    ensures InvFor(s', o)
  {
    var t := Put(s, d, s.cpus[d].(pc := ReqAwake));
    WakeKeeps(s, o, d, t);
    NoSleeperLeft(s, o, d);
    PutCommutes(s, c, Uncount(s.cpus[c], ReadPending(s, c)), d, s.cpus[d].(pc := ReqAwake));
    UncountKeeps(t, o, c, s');
  }

  /** At most one thread sleeps on exclusive_cond, so signal reaches it. */
  lemma SoleSleeper(s: State, o: Option<Cpu>, d: Cpu)
    requires InvFor(s, o) && Asleep(s, d)
    ensures forall e <- s.cpus :: Asleep(s, e) ==> e == d
  {
    forall e <- s.cpus | Asleep(s, e) ensures e == d {
      assert CpuOk(s, o, d) && CpuOk(s, o, e);
    }
  }

  lemma ScanLocal(l: Local, v: View, l': Local)
    requires LocalInv(l, v) && !v.seen && !v.owns && l' == l.(hasWaiter := l.running)
    requires v.owned && !v.locked
    ensures LocalInv(l', v.(seen := true))
  {
  }

  lemma ScanKeeps(s: State, o: Option<Cpu>, c: Cpu, d: Cpu, s': State)
    requires InvFor(s, o) && c in s.cpus && ScanStep(s, c, d, s')
    ensures InvFor(s', o)
  {
    assert CpuOk(s, o, c) && CpuOk(s, o, d);
    if c != d {
      ScanLocal(s.cpus[d], ViewOf(s, o, d), s'.cpus[d]);
    }
    forall e <- s'.cpus ensures CpuOk(s', o, e) {
      assert CpuOk(s, o, e);
    }
    ScanCount(s, o, c, d, s');
  }

  lemma ScanCount(s: State, o: Option<Cpu>, c: Cpu, d: Cpu, s': State)
    requires CountOk(s, o) && c in s.cpus && CpuOk(s, o, c) && ScanStep(s, c, d, s') && CpuOk(s, o, d)
    ensures CountOk(s', o)
  {
    if ReadRunning(s, c, d) {
      assert Waiters(s') == Waiters(s) + {d};
    } else {
      assert Waiters(s') == Waiters(s);
    }
  }

  lemma BroadcastLocal(l: Local, v: View, v': View)
    requires LocalInv(l, v) && !l.hasWaiter && !v.owns && v' == View(v.locked, false, false, false)
    ensures LocalInv(Woken(l), v')
  {
  }

  lemma BroadcastOthers(s: State, o: Option<Cpu>, c: Cpu, s': State, d: Cpu)
    requires InvFor(s, o) && c in s.cpus && BroadcastStep(s, c, s')
    requires d in s'.cpus
    ensures o == Some(c) && CpuOk(s', None, d)
  {
    assert CpuOk(s, o, c) && CpuOk(s, o, d);
    assert d !in Waiters(s);
    if d != c {
      BroadcastLocal(s.cpus[d], ViewOf(s, o, d), ViewOf(s', None, d));
    }
  }

  lemma BroadcastCount(s: State, c: Cpu, s': State)
    requires CountOk(s, Some(c)) && CpuOk(s, Some(c), c) && BroadcastStep(s, c, s')
    ensures CountOk(s', None)
  {
    assert forall d :: d !in Waiters(s);
    assert Waiters(s') == {};
  }

  lemma BroadcastKeeps(s: State, o: Option<Cpu>, c: Cpu, s': State)
    requires InvFor(s, o) && c in s.cpus && BroadcastStep(s, c, s')
    ensures InvFor(s', None)
  {
    forall d <- s'.cpus ensures CpuOk(s', None, d) {
      BroadcastOthers(s, o, c, s', d);
    }
    BroadcastOthers(s, o, c, s', c);
    assert CpuOk(s, o, c);
    BroadcastCount(s, c, s');
  }

  lemma ListOthers(s: State, o: Option<Cpu>, c: Cpu, step: Step, s': State, d: Cpu)
    requires InvFor(s, o) && (step.AddCpu? || step.RemoveCpu?) && NextStep(ALL_FENCES, s, c, step, s')
    requires d in s'.cpus
    ensures CpuOk(s', o, d)
  {
    if o.Some? { assert CpuOk(s, o, o.value); }
    if d in s.cpus {
      assert CpuOk(s, o, d);
      assert ViewOf(s', o, d) == ViewOf(s, o, d);
    }
  }

  lemma ListCount(s: State, o: Option<Cpu>, c: Cpu, step: Step, s': State)
    requires CountOk(s, o) && (step.AddCpu? || step.RemoveCpu?) && NextStep(ALL_FENCES, s, c, step, s')
    requires o.Some? ==> CpuOk(s, o, o.value)
    requires c in s.cpus ==> CpuOk(s, o, c)
    ensures CountOk(s', o)
  {
    assert Waiters(s') == Waiters(s);
  }

  lemma ListKeeps(s: State, o: Option<Cpu>, c: Cpu, step: Step, s': State)
    requires InvFor(s, o) && (step.AddCpu? || step.RemoveCpu?) && NextStep(ALL_FENCES, s, c, step, s')
    ensures InvFor(s', o)
  {
    forall d <- s'.cpus ensures CpuOk(s', o, d) {
      ListOthers(s, o, c, step, s', d);
    }
    ListCount(s, o, c, step, s');
  }

  lemma RunKeeps(s: State, o: Option<Cpu>, c: Cpu, s': State)
    requires InvFor(s, o) && c in s.cpus && RunStep(ALL_FENCES, s, c, s')
    ensures Inv(s')
  {
    var l := s.cpus[c];
    var e := Statement(ALL_FENCES, l, ReadPending(s, c), s.cpus.Keys);
    if ExecStart(ALL_FENCES, l, ReadPending(s, c)).Go? {
      ExecStartKeeps(s, o, c, e, s');
    } else if ExecEnd(ALL_FENCES, l, ReadPending(s, c)).Go? {
      if l.pc == EndCheck && l.hasWaiter {
        UncountKeeps(s, o, c, s');
      } else {
        ExecEndKeeps(s, o, c, e, s');
      }
    } else if l.pc == ReqFence {
      FenceKeeps(s, o, c, s');
    } else if l.pc.ReqScan? {
      ScanEndKeeps(s, o, c, s');
    } else if l.pc == ReqIdle && ReadPending(s, c) == 0 {
      ClaimKeeps(s, o, c, s');
    } else {
      SectionKeeps(s, o, c, e, s');
    }
  }

  lemma NextKeeps(s: State, c: Cpu, step: Step, s': State)
    requires Inv(s) && NextStep(ALL_FENCES, s, c, step, s')
    ensures Inv(s')
  {
    var o :| InvFor(s, o);
    match step {
      case Run => RunKeeps(s, o, c, s');
      case Enter(f) => CallKeeps(s, o, c, f, s');
      case Drain =>
        if Oldest(s.cpus[c].buf).WRunning? {
          DrainRunningKeeps(s, o, c, s');
        } else {
          DrainPendingKeeps(s, o, c, s');
        }
      case Wake => WakeKeeps(s, o, c, s');
      case Scan(d) => ScanKeeps(s, o, c, d, s');
      case Signal(d) => SignalKeeps(s, o, c, d, s');
      case Broadcast => BroadcastKeeps(s, o, c, s');
      case AddCpu => ListKeeps(s, o, c, step, s');
      case RemoveCpu => ListKeeps(s, o, c, step, s');
    }
  }

  lemma {:induction false} RunKeepsInv(run: seq<State>, i: nat)
    requires IsRun(ALL_FENCES, run) && i < |run|
    ensures Inv(run[i])
  {
    if i == 0 {
      InitInv(run[0]);
    } else {
      RunKeepsInv(run, i - 1);
      assert Next(ALL_FENCES, run[i - 1], run[i - 1 + 1]);
      var c, step :| NextStep(ALL_FENCES, run[i - 1], c, step, run[i]);
      NextKeeps(run[i - 1], c, step, run[i]);
    }
  }

  // ---- Main results ----------------------------------------------------

  /** In every state of every run, whatever the number of CPUs and the
      interleaving, an exclusive section excludes execution and other sections. */
  lemma ExclusionHolds(run: seq<State>)
    requires IsRun(ALL_FENCES, run)
    ensures forall i :: 0 <= i < |run| ==> Exclusion(run[i])
  {
    forall i | 0 <= i < |run| ensures Exclusion(run[i]) {
      RunKeepsInv(run, i);
      InvGivesExclusion(run[i]);
    }
  }

  /** The thread has finished its scan and has not ended its section. */
  predicate AfterScan(l: Local) {
    Owns(l) && !l.pc.ReqFence? && !l.pc.ReqScan?
  }

  /** After the scan pending_cpus is 1 plus the number of counted CPUs, and no
      counted CPU waits on a condition variable. */
  lemma CountIsExact(run: seq<State>, i: nat, c: Cpu)
    requires IsRun(ALL_FENCES, run) && i < |run|
    requires c in run[i].cpus && AfterScan(run[i].cpus[c])
    ensures Logical(run[i]) == 1 + |Waiters(run[i])|
    ensures run[i].lock == None ==> run[i].pending == 1 + |Waiters(run[i])|
    ensures forall d <- Waiters(run[i]) :: Counted(run[i].cpus[d].pc)
  {
    RunKeepsInv(run, i);
    var o :| InvFor(run[i], o);
    assert CpuOk(run[i], o, c);
    forall d <- Waiters(run[i]) ensures Counted(run[i].cpus[d].pc) {
      assert CpuOk(run[i], o, d);
    }
  }

  /** The assertion at the head of start_exclusive: whoever may call it is not
      marked as running, in memory or in a store on its way there. */
  lemma CallerIsNotRunning(run: seq<State>, i: nat, c: Cpu)
    requires IsRun(ALL_FENCES, run) && i < |run|
    requires c in run[i].cpus && run[i].cpus[c].pc == Outside
    ensures !ReadRunning(run[i], c, c) && !run[i].cpus[c].running
  {
    RunKeepsInv(run, i);
    var o :| InvFor(run[i], o);
    assert CpuOk(run[i], o, c);
  }

  /** A nested pair of start_exclusive and end_exclusive leaves no trace. */
  lemma NestedPairIsIdle(fences: Fences, s: State, c: Cpu, s': State, s'': State)
    requires c in s.cpus && s.cpus[c].pc == Outside && InSection(s.cpus[c])
    requires NextStep(fences, s, c, Enter(StartExclusiveSection), s')
    requires NextStep(fences, s', c, Enter(EndExclusiveSection), s'')
    ensures s' == Put(s, c, s.cpus[c].(depth := s.cpus[c].depth + 1)) && s'' == s
  {
    assert s''.cpus == s.cpus;
  }

  /** Step `step` of thread `c` is enabled. */
  ghost predicate Can(fences: Fences, s: State, c: Cpu, step: Step) {
    exists s' :: NextStep(fences, s, c, step, s')
  }

  /** Thread `c` is not blocked: it is executing guest code, which it will leave
      (it is kicked), or inside its exclusive section, or it has a statement to
      execute or a store to drain. */
  ghost predicate Live(fences: Fences, s: State, c: Cpu) {
    && c in s.cpus
    && (|| s.cpus[c].pc == Executing
        || InSection(s.cpus[c])
        || Can(fences, s, c, Drain) || Can(fences, s, c, Run) || Can(fences, s, c, Broadcast)
        || (exists d :: Can(fences, s, c, Scan(d)))
        || (exists d :: Can(fences, s, c, Signal(d))))
  }

  lemma DrainIsPossible(s: State, c: Cpu)
    requires c in s.cpus && s.cpus[c].buf.Push?
    ensures Can(ALL_FENCES, s, c, Drain)
  {
    var l := s.cpus[c];
    var l' := l.(buf := DropOldest(l.buf));
    var s' := match Oldest(l.buf)
      case WRunning(b) => Put(s, c, l'.(running := b))
      case WPending(v) => Put(s, c, l').(pending := v);
    assert NextStep(ALL_FENCES, s, c, Drain, s');
  }

  lemma StatementIsPossible(s: State, c: Cpu, e: Effect)
    requires c in s.cpus && e == Statement(ALL_FENCES, s.cpus[c], ReadPending(s, c), s.cpus.Keys)
    requires e.Go? && (e.op.Take? ==> s.lock == None)
    ensures Live(ALL_FENCES, s, c)
  {
    var s' := Put(s, c, e.next).(lock := if e.op.Take? then Some(c) else if e.op.Drop? then None else s.lock);
    assert Apply(s, c, e, s');
    if Signals(s.cpus[c], ReadPending(s, c)) && exists d :: d in s.cpus && Asleep(s, d) {
      var d :| d in s.cpus && Asleep(s, d);
      var s'' := Put(Put(s, c, Uncount(s.cpus[c], ReadPending(s, c))), d, s.cpus[d].(pc := ReqAwake));
      assert NextStep(ALL_FENCES, s, c, Signal(d), s'');
    } else {
      assert NextStep(ALL_FENCES, s, c, Run, s');
    }
  }

  /** What a thread with nothing to drain can do. */
  lemma LiveLocal(l: Local, v: View, read: int, all: set<Cpu>)
    requires LocalInv(l, v) && l.buf.Empty? && (l.pc != Outside || l.depth > 0)
    requires l.pc != StartParked && l.pc != ReqParked && l.pc != ReqAsleep
    ensures var e := Statement(ALL_FENCES, l, read, all);
            || l.pc == Executing || InSection(l) || l.pc == RelClear
            || (l.pc.ReqScan? && l.pc.todo != {})
            || (e.Go? && (e.op.Take? ==> !v.locked))
  {
  }

  /** The holder of the lock, and anyone who does not need it or can have it, is
      live unless asleep on a condition variable. */
  lemma LiveUnlessWaiting(s: State, o: Option<Cpu>, c: Cpu)
    requires c in s.cpus && CountOk(s, o) && CpuOk(s, o, c) && (s.lock == None || s.lock == Some(c))
    requires s.cpus[c].pc != Outside || s.cpus[c].depth > 0
    requires s.cpus[c].pc != StartParked && s.cpus[c].pc != ReqParked && s.cpus[c].pc != ReqAsleep
    ensures Live(ALL_FENCES, s, c)
  {
    var l := s.cpus[c];
    if l.buf.Push? {
      DrainIsPossible(s, c);
    } else {
      LiveLocal(l, ViewOf(s, o, c), ReadPending(s, c), s.cpus.Keys);
      if l.pc == Executing || InSection(l) {
      } else if l.pc == RelClear {
        BroadcastIsPossible(s, c);
      } else if l.pc.ReqScan? && l.pc.todo != {} {
        var d :| d in l.pc.todo;
        ScanIsPossible(s, c, d);
      } else {
        StatementIsPossible(s, c, Statement(ALL_FENCES, l, ReadPending(s, c), s.cpus.Keys));
      }
    }
  }

  lemma BroadcastIsPossible(s: State, c: Cpu)
    requires c in s.cpus && s.cpus[c].pc == RelClear
    ensures Can(ALL_FENCES, s, c, Broadcast)
  {
    var l := s.cpus[c];
    var t := Put(s, c, l.(pc := RelUnlock, buf := Push(l.buf, WPending(0))));
    assert NextStep(ALL_FENCES, s, c, Broadcast, t.(cpus := map d | d in t.cpus :: Woken(t.cpus[d])));
  }

  lemma ScanIsPossible(s: State, c: Cpu, d: Cpu)
    requires c in s.cpus && s.cpus[c].pc.ReqScan? && d in s.cpus[c].pc.todo && d in s.cpus
    ensures Can(ALL_FENCES, s, c, Scan(d))
  {
    var l := s.cpus[c];
    var t := Put(s, c, l.(pc := ReqScan(l.pc.todo - {d}, l.pc.found + 1)));
    var s' := if ReadRunning(s, c, d) then Put(t, d, t.cpus[d].(hasWaiter := true))
              else Put(s, c, l.(pc := ReqScan(l.pc.todo - {d}, l.pc.found)));
    assert NextStep(ALL_FENCES, s, c, Scan(d), s');
  }

  /** Whoever sleeps while the lock is free sleeps for the sake of a thread that
      does not. */
  lemma WaitsFor(s: State, o: Option<Cpu>, c: Cpu) returns (d: Cpu)
    requires InvFor(s, o) && c in s.cpus && s.cpus[c].pc != Outside && s.lock == None
    ensures d in s.cpus && (s.cpus[d].pc != Outside || s.cpus[d].depth > 0)
    ensures s.cpus[d].pc != StartParked && s.cpus[d].pc != ReqParked && s.cpus[d].pc != ReqAsleep
    ensures s.cpus[c].pc == ReqAsleep ==> d in Waiters(s)
  {
    assert CpuOk(s, o, c);
    d := c;
    if s.cpus[c].pc == StartParked || s.cpus[c].pc == ReqParked {
      d := o.value;
      assert CpuOk(s, o, d);
    }
    if s.cpus[d].pc == ReqAsleep {
      d :| d in Waiters(s);
      assert CpuOk(s, o, d);
    }
  }

  /** No lost wake-up and no deadlock: while any thread is inside one of the four
      functions, asleep or not, some thread is live.  For a requester asleep on
      exclusive_cond it is a counted CPU or the holder of the lock. */
  lemma NeverStuck(run: seq<State>, i: nat, c: Cpu) returns (d: Cpu)
    requires IsRun(ALL_FENCES, run) && i < |run|
    requires c in run[i].cpus && run[i].cpus[c].pc != Outside
    ensures Live(ALL_FENCES, run[i], d)
    ensures run[i].cpus[c].pc == ReqAsleep ==> d in Waiters(run[i]) || run[i].lock == Some(d)
  {
    RunKeepsInv(run, i);
    var s := run[i];
    var o :| InvFor(s, o);
    if s.lock.Some? {
      d := s.lock.value;
    } else {
      d := WaitsFor(s, o, c);
    }
    assert CpuOk(s, o, d);
    LiveUnlessWaiting(s, o, d);
  }

  function Size(buf: Buffer): nat {
    if buf.Empty? then 0 else 1 + Size(buf.older)
  }

  /** How far a counted CPU is from being uncounted. */
  function Distance(l: Local): nat {
    Size(l.buf) +
    match l.pc
    case StartFence => 18 case StartRead => 16 case StartLock => 14 case StartCheck => 12
    case StartUnlock => 10 case Executing => 8
    case EndFence => 6 case EndRead => 4 case EndLock => 2
    case _ => 0
  }

  /** A step by the thread itself. */
  predicate Moves(step: Step) { step.Run? || step.Drain? || step.Enter? }

  lemma DistanceStatement(l: Local, v: View, mem: int, all: set<Cpu>)
    requires LocalInv(l, v) && l.hasWaiter && ReadOk(v, LastPending(l.buf, mem))
    ensures var e := Statement(ALL_FENCES, l, LastPending(l.buf, mem), all);
            e.Go? && e.next.hasWaiter ==> Distance(e.next) < Distance(l)
  {
  }

  lemma DistanceOther(l: Local, v: View, f: Function)
    requires LocalInv(l, v) && l.hasWaiter
    ensures l.buf.Push? ==> Size(DropOldest(l.buf)) < Size(l.buf)
    ensures Call(l, f).Go? ==> Distance(Call(l, f).next) < Distance(l)
    ensures l.pc != ReqAsleep && Woken(l) == l
  {
  }

  /** A thread asleep on exclusive_cond is the owner, so nobody else is. */
  lemma SleeperOwns(s: State, o: Option<Cpu>, r: Cpu, c: Cpu)
    requires InvFor(s, o) && Asleep(s, r) && c in s.cpus
    ensures !s.cpus[c].pc.ReqScan? && s.cpus[c].pc != RelClear
  {
    assert CpuOk(s, o, r) && CpuOk(s, o, c);
  }

  /** Outside scans and broadcasts, a CPU that is counted after a step was
      counted before, and only its own steps have changed it. */
  lemma OnlyOwnSteps(s: State, c: Cpu, step: Step, s': State, d: Cpu)
    requires NextStep(ALL_FENCES, s, c, step, s') && d in Waiters(s')
    requires c in s.cpus ==> !s.cpus[c].pc.ReqScan? && s.cpus[c].pc != RelClear
    ensures d in Waiters(s)
    ensures c != d && s.cpus[d].pc != ReqAsleep ==> s'.cpus[d] == s.cpus[d]
  {
  }

  lemma OwnStep(s: State, c: Cpu, step: Step, s': State, v: View)
    requires NextStep(ALL_FENCES, s, c, step, s') && c in Waiters(s) && c in Waiters(s')
    requires LocalInv(s.cpus[c], v) && ReadOk(v, ReadPending(s, c))
    ensures Moves(step) && Distance(s'.cpus[c]) < Distance(s.cpus[c])
  {
    var l := s.cpus[c];
    DistanceStatement(l, v, s.pending, s.cpus.Keys);
    DistanceOther(l, v, if step.Enter? then step.f else CpuExecEnd);
  }

  /** The wait for the counted CPUs ends if they keep moving: while a requester
      sleeps on exclusive_cond no CPU becomes counted, no step of another thread
      touches a counted CPU, and every step of its own brings it closer to
      EndCheck, which uncounts it. */
  lemma CountedCpusAdvance(run: seq<State>, i: nat, r: Cpu, c: Cpu, step: Step, s': State, d: Cpu)
    requires IsRun(ALL_FENCES, run) && i < |run|
    requires Asleep(run[i], r) && NextStep(ALL_FENCES, run[i], c, step, s')
    requires d in Waiters(s')
    ensures d in Waiters(run[i])
    ensures if c == d then Distance(s'.cpus[d]) < Distance(run[i].cpus[d]) else s'.cpus[d] == run[i].cpus[d]
  {
    RunKeepsInv(run, i);
    var s := run[i];
    var o :| InvFor(s, o);
    if c in s.cpus {
      SleeperOwns(s, o, r, c);
    }
    OnlyOwnSteps(s, c, step, s', d);
    assert CpuOk(s, o, d);
    DistanceOther(s.cpus[d], ViewOf(s, o, d), CpuExecEnd);
    if c == d {
      ReadIsOk(s, o, d);
      OwnStep(s, c, step, s', ViewOf(s, o, d));
    }
  }
}
