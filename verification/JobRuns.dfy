/**
 * The life of one job (job.c, blockjob.c, monitor/qmp-cmds.c), with what can come
 * between its pauses and its I/O errors.  The job may be moved between the main
 * loop and iothreads.  While the main loop calls driver->user_resume it has
 * released job_mutex, so coroutines in an iothread can go on; those in the main
 * loop cannot.
 */
module JobRuns {
  import opened Jobs

  /** Where the main loop is: outside of user_resume, or inside it before or
      after the I/O status was reset. */
  datatype Phase = Outside | Called | WasReset

  datatype State = State(job: Job, inMain: bool, phase: Phase)

  /** What the main loop does to the pause. */
  datatype PauseOp =
    | PauseByUser
    | BeginDrain
    | EndDrain
    | CallUserResume  // in job_user_resume_locked or job_cancel_async_locked
    | ResetInCallback
    | EndUserPause
    | ResetByCont     // the command cont resets every job

  /** What the main loop does to bring the job to its end. */
  datatype EndOp =
    | MarkCancelled(force: bool)
    | Complete        // job_completed_locked, as far as the job itself goes
    | BecomePending
    | PrepareWith(ret: int)
    | Finalize
    | Dismiss         // or job_early_fail

  datatype Step =
    | Coroutine(step: CoStep)
    | StartJob
    | Pausing(op: PauseOp)
    | Ending(end: EndOp)
    | Move(toMain: bool) // job_set_aio_context

  predicate CanPause(p: Pause, phase: Phase, status: Status, op: PauseOp) {
    match op
    case PauseByUser => phase.Outside? && Accepts(VerbPause, status) && !p.user
    case BeginDrain => phase.Outside?
    case EndDrain => phase.Outside? && p.drained > 0
    case CallUserResume => phase.Outside? && p.user
    case ResetInCallback => phase.Called? && ResetAsserts(p)
    case EndUserPause => phase.WasReset?
    case ResetByCont => phase.Outside? && ResetAsserts(p)
  }

  function NextPause(p: Pause, op: PauseOp): Pause
    requires op.EndDrain? ==> p.drained > 0
    requires op.ResetInCallback? || op.ResetByCont? ==> ResetAsserts(p)
  {
    match op
    case PauseByUser => UserPause(p)
    case BeginDrain => DrainBegin(p)
    case EndDrain => DrainEnd(p)
    case CallUserResume => p
    case ResetInCallback => ResetIoStatus(p)
    case EndUserPause => UserResumed(p)
    case ResetByCont => ResetIoStatus(p)
  }

  function NextPhase(op: PauseOp): Phase {
    if op.CallUserResume? then Called else if op.ResetInCallback? then WasReset else Outside
  }

  predicate CanEnd(j: Job, end: EndOp) {
    match end
    case MarkCancelled(force) => Live(j) && (force || !j.deferred)
    case Complete => CanComplete(j) && (j.co.NotStarted? ==> j.forceCancel)
    case BecomePending => j.status == Waiting
    case PrepareWith(_) => j.status == Pending && j.ret == 0 && !j.forceCancel && j.calls == None
    case Finalize => Live(j) && Completed(j.status) && (j.status == Pending || j.ret != 0 || j.forceCancel)
    case Dismiss => j.status == Concluded || j.status == Created
  }

  function NextEnd(j: Job, end: EndOp): (r: Job)
    ensures r.pause == j.pause && r.options == j.options && r.co.NotStarted? == j.co.NotStarted?
  {
    match end
    case MarkCancelled(force) => j.(cancelled := true, forceCancel := j.forceCancel || force)
    case Complete => if j.ret != 0 || j.forceCancel then UpdateRc(Exit(j)) else SetStatus(Exit(j), Waiting)
    case BecomePending => SetStatus(j, Pending)
    case PrepareWith(ret) => Prepared(j, ret)
    case Finalize => Conclude(CalledBack(UpdateRc(j)))
    case Dismiss => Dismissed(j)
  }

  predicate Enabled(s: State, step: Step) {
    match step
    case Coroutine(c) =>
      CanStep(s.job, c) && (s.inMain ==> s.phase.Outside? && (c.StopOutside? ==> c.atomic))
    case StartJob => s.phase.Outside? && s.job.status == Created
    case Pausing(op) => CanPause(s.job.pause, s.phase, s.job.status, op)
    case Ending(end) => s.phase.Outside? && CanEnd(s.job, end)
    case Move(toMain) =>
      s.phase.Outside? && (s.job.paused || Completed(s.job.status)) && (s.job.options.mainOnly ==> toMain)
  }

  function Apply(s: State, step: Step): State
    requires Enabled(s, step)
  {
    match step
    case Coroutine(c) => s.(job := CoApply(s.job, c))
    case StartJob => s.(job := Started(s.job))
    case Pausing(op) => s.(job := s.job.(pause := NextPause(s.job.pause, op)), phase := NextPhase(op))
    case Ending(end) => s.(job := NextEnd(s.job, end))
    case Move(toMain) => s.(inMain := toMain)
  }

  predicate Init(options: Options, s: State) {
    s.job == NewJob(options) && s.phase.Outside? && (options.mainOnly ==> s.inMain)
  }

  ghost predicate CanNext(s: State, s': State) { exists step :: Enabled(s, step) && s' == Apply(s, step) }

  ghost predicate IsRun(options: Options, run: seq<State>) {
    run != [] && Init(options, run[0]) && forall k :: 0 < k < |run| ==> CanNext(run[k - 1], run[k])
  }

  /** No state of any run fails the assertion of the reset, whoever calls it. */
  ghost predicate ResetIsSafe(options: Options) {
    forall run: seq<State> :: IsRun(options, run) ==> ResetAsserts(run[|run| - 1].job.pause)
  }

  /** The pauses that were counted and that nothing will end. */
  function Excess(j: Job): int { j.pause.count - Counted(j.pause, j.co.NotStarted?) }

  /** In every state of every run pause_count is the start to come, the user's
      pause and the drained sections. */
  ghost predicate CountIsExact(options: Options) {
    forall run: seq<State> :: IsRun(options, run) ==> var j := run[|run| - 1].job;
      j.pause.count == B(j.co.NotStarted?) + B(j.pause.user) + j.pause.drained
  }

  // ---- What every step keeps -------------------------------------------

  /** Inside user_resume the user's pause is in force, and once the status has
      been reset in the main loop it stays reset. */
  predicate PhaseOk(p: Pause, phase: Phase, mainOnly: bool) {
    && (!phase.Outside? ==> p.user)
    && (mainOnly && phase.WasReset? ==> !p.ioError)
  }

  predicate Inv(s: State) {
    JobOk(s.job) && PhaseOk(s.job.pause, s.phase, s.job.options.mainOnly) && (s.job.options.mainOnly ==> s.inMain)
  }

  /** What a step may not change, and may only let grow. */
  predicate Kept(j: Job, j': Job) { j'.options == j.options && Excess(j') >= Excess(j) }

  lemma PausingOk(p: Pause, phase: Phase, status: Status, op: PauseOp, notStarted: bool, options: Options)
    requires PauseOk(p, notStarted, options) && PhaseOk(p, phase, options.mainOnly) && CanPause(p, phase, status, op)
    ensures var p' := NextPause(p, op);
            && PauseOk(p', notStarted, options) && PhaseOk(p', NextPhase(op), options.mainOnly)
            && p'.reports == p.reports && p'.count - Counted(p', notStarted) == p.count - Counted(p, notStarted)
  {
    PauseKept(p, notStarted, options);
  }

  lemma PauseSetKeeps(s: State, p: Pause, phase: Phase)
    requires Inv(s) && PauseOk(p, s.job.co.NotStarted?, s.job.options) && p.reports == s.job.pause.reports
    requires PhaseOk(p, phase, s.job.options.mainOnly)
    ensures Inv(s.(job := s.job.(pause := p), phase := phase))
  {
    PausedOk(s.job, p);
  }

  lemma PausingKeeps(s: State, op: PauseOp)
    requires Inv(s) && CanPause(s.job.pause, s.phase, s.job.status, op)
    ensures var s' := s.(job := s.job.(pause := NextPause(s.job.pause, op)), phase := NextPhase(op));
            Inv(s') && Kept(s.job, s'.job)
  {
    PausingOk(s.job.pause, s.phase, s.job.status, op, s.job.co.NotStarted?, s.job.options);
    PauseSetKeeps(s, NextPause(s.job.pause, op), NextPhase(op));
  }

  lemma CoroutineKeeps(s: State, c: CoStep)
    requires Inv(s) && CanStep(s.job, c) && (s.phase.Outside? || !s.inMain)
    ensures Inv(s.(job := CoApply(s.job, c))) && Kept(s.job, CoApply(s.job, c))
  {
    CoKeeps(s.job, c);
    CoroutineCounts(s.job, c);
  }

  lemma CoroutineCounts(j: Job, c: CoStep)
    requires JobOk(j) && CanStep(j, c)
    ensures Excess(CoApply(j, c)) >= Excess(j)
  {
  }

  lemma StartKeeps(s: State)
    requires Inv(s) && s.phase.Outside? && s.job.status == Created
    ensures Inv(s.(job := Started(s.job))) && Kept(s.job, Started(s.job))
  {
    StartedOk(s.job);
  }

  lemma EndingOk(j: Job, end: EndOp)
    requires JobOk(j) && CanEnd(j, end)
    ensures JobOk(NextEnd(j, end))
  {
    match end
    case MarkCancelled(force) => CancelledOk(j, force);
    case Complete =>
      if j.ret != 0 || j.forceCancel {
        ExitAborts(j);
      } else {
        ExitWaits(j);
      }
    case BecomePending => PendingOk(j);
    case PrepareWith(ret) => PreparedOk(j, ret);
    case Finalize => FinalizedOk(j);
    case Dismiss => DismissedOk(j);
  }

  lemma EndingKeeps(s: State, end: EndOp)
    requires Inv(s) && CanEnd(s.job, end)
    ensures Inv(s.(job := NextEnd(s.job, end))) && Kept(s.job, NextEnd(s.job, end))
  {
    EndingOk(s.job, end);
  }

  /** Every step keeps the job well-formed: its status moves along JobSTT, no pause
      can be ended more often than it was counted, and one that was counted too
      often stays. */
  lemma StepKeeps(s: State, step: Step)
    requires Inv(s) && Enabled(s, step)
    ensures Inv(Apply(s, step)) && Kept(s.job, Apply(s, step).job)
  {
    match step
    case Coroutine(c) => CoroutineKeeps(s, c);
    case StartJob => StartKeeps(s);
    case Pausing(op) => PausingKeeps(s, op);
    case Ending(end) => EndingKeeps(s, end);
    case Move(_) =>
  }

  lemma InitKeeps(options: Options, s: State)
    requires Init(options, s)
    ensures Inv(s) && s.job.options == options
  {
    NewJobIs(options);
  }

  lemma NextKeeps(s: State, s': State)
    requires Inv(s) && CanNext(s, s')
    ensures Inv(s') && Kept(s.job, s'.job)
  {
    var step :| Enabled(s, step) && s' == Apply(s, step);
    StepKeeps(s, step);
  }

  lemma {:induction false} RunKeeps(options: Options, run: seq<State>, k: nat)
    requires IsRun(options, run) && k < |run|
    ensures Inv(run[k]) && run[k].job.options == options
  {
    if k == 0 {
      InitKeeps(options, run[0]);
    } else {
      RunKeeps(options, run, k - 1);
      NextKeeps(run[k - 1], run[k]);
    }
  }

  lemma RunStep(options: Options, run: seq<State>, k: nat)
    requires IsRun(options, run) && 0 < k < |run|
    ensures Excess(run[k].job) >= Excess(run[k - 1].job)
  {
    RunKeeps(options, run, k - 1);
    NextKeeps(run[k - 1], run[k]);
  }

  lemma {:induction false} ExcessStays(options: Options, run: seq<State>, k: nat, m: nat)
    requires IsRun(options, run) && k <= m < |run|
    ensures Excess(run[m].job) >= Excess(run[k].job)
  {
    if k < m {
      ExcessStays(options, run, k, m - 1);
      RunStep(options, run, m);
    }
  }

  /** A pause that was counted too often is never taken back: the count does not
      come down to 0 any more. */
  lemma PausedForGood(options: Options, run: seq<State>, k: nat, m: nat)
    requires IsRun(options, run) && k <= m < |run| && Excess(run[k].job) > 0
    ensures run[m].job.pause.count > 0
  {
    ExcessStays(options, run, k, m);
  }

  // ---- What goes wrong elsewhere ---------------------------------------

  lemma Extend(options: Options, run: seq<State>, step: Step)
    requires IsRun(options, run) && Enabled(run[|run| - 1], step)
    ensures IsRun(options, run + [Apply(run[|run| - 1], step)])
  {
    var s := run[|run| - 1];
    var run' := run + [Apply(s, step)];
    forall k | 0 < k < |run'| ensures CanNext(run'[k - 1], run'[k]) {
      if k == |run| {
        assert Enabled(run'[k - 1], step) && run'[k] == Apply(run'[k - 1], step);
      } else {
        assert CanNext(run[k - 1], run[k]);
      }
    }
  }

  /** A job in an iothread that has just been started. */
  lemma JustStarted(options: Options, s: State) returns (run: seq<State>)
    requires Init(options, s) && Inv(s) && s.job.status == Created && s.job.pause == Pause(1, false, 0, false, 0)
    requires !s.job.forceCancel
    ensures IsRun(options, run)
    ensures var s' := run[|run| - 1];
            && s'.job.co.InRun? && s'.job.status == Running && !s'.job.forceCancel && s'.job.options == s.job.options
            && s'.job.pause == Pause(0, false, 0, false, 0) && s'.inMain == s.inMain && s'.phase.Outside?
  {
    run := [s];
    Extend(options, run, StartJob);
    run := run + [Apply(s, StartJob)];
  }

  lemma RunInIothread(options: Options) returns (run: seq<State>)
    requires !options.mainOnly
    ensures IsRun(options, run)
    ensures var s := run[|run| - 1];
            && Inv(s) && s.job.co.InRun? && s.job.status == Running && !s.job.forceCancel && s.job.options == options
            && s.job.pause == Pause(0, false, 0, false, 0) && !s.inMain && s.phase.Outside?
  {
    NewJobIs(options);
    var s := State(NewJob(options), false, Outside);
    InitKeeps(options, s);
    run := JustStarted(options, s);
    RunKeeps(options, run, |run| - 1);
  }

  /** One more step of a run. */
  lemma Take(options: Options, run: seq<State>, step: Step) returns (run': seq<State>)
    requires IsRun(options, run) && Enabled(run[|run| - 1], step)
    ensures IsRun(options, run') && run'[|run'| - 1] == Apply(run[|run| - 1], step)
  {
    Extend(options, run, step);
    run' := run + [Apply(run[|run| - 1], step)];
  }

  lemma TakePause(options: Options, run: seq<State>, op: PauseOp) returns (run': seq<State>)
    requires IsRun(options, run)
    requires var s := run[|run| - 1]; CanPause(s.job.pause, s.phase, s.job.status, op)
    ensures IsRun(options, run')
    ensures var s := run[|run| - 1];
            run'[|run'| - 1] == s.(job := s.job.(pause := NextPause(s.job.pause, op)), phase := NextPhase(op))
  {
    run' := Take(options, run, Pausing(op));
  }

  lemma TakeError(options: Options, run: seq<State>) returns (run': seq<State>)
    requires IsRun(options, run)
    requires var s := run[|run| - 1]; s.job.co.InRun? && !s.inMain
    ensures IsRun(options, run')
    ensures var s := run[|run| - 1]; run'[|run'| - 1] == s.(job := s.job.(pause := StopOnError(s.job.pause)))
  {
    run' := Take(options, run, Coroutine(ErrorStop));
  }

  lemma TakeYield(options: Options, run: seq<State>) returns (run': seq<State>)
    requires IsRun(options, run)
    requires var s := run[|run| - 1]; s.job.co.InRun? && s.job.pause.count == 0 && !s.job.forceCancel && !s.inMain
    ensures IsRun(options, run')
    ensures var s := run[|run| - 1]; run'[|run'| - 1] == s.(job := s.job.(busy := false, co := Yielded))
  {
    run' := Take(options, run, Coroutine(Yield));
  }

  lemma TakeBegin(options: Options, run: seq<State>) returns (run': seq<State>)
    requires IsRun(options, run)
    requires var s := run[|run| - 1];
             s.job.co.Yielded? && !s.job.busy && !s.job.pause.user && !CountsExactly(s.job.options) && !s.inMain
    ensures IsRun(options, run')
    ensures var s := run[|run| - 1]; run'[|run'| - 1] == s.(job := s.job.(pause := BeginStop(s.job.pause), busy := true))
  {
    run' := Take(options, run, Coroutine(StopOutside(false)));
  }

  lemma TakeFinish(options: Options, run: seq<State>) returns (run': seq<State>)
    requires IsRun(options, run)
    requires var s := run[|run| - 1]; s.job.pause.reports > 0 && !s.inMain
    ensures IsRun(options, run')
    ensures var s := run[|run| - 1]; run'[|run'| - 1] == s.(job := s.job.(pause := EndStop(s.job.pause)))
  {
    run' := Take(options, run, Coroutine(FinishStop));
  }

  /** The user resumes the job, up to where the I/O status has been reset. */
  lemma TakeReset(options: Options, run: seq<State>) returns (run': seq<State>)
    requires IsRun(options, run)
    requires var s := run[|run| - 1]; s.phase.Outside? && s.job.pause.user && s.job.pause.count > 0
    ensures IsRun(options, run')
    ensures var s := run[|run| - 1];
            run'[|run'| - 1] == s.(phase := WasReset, job := s.job.(pause := s.job.pause.(ioError := false)))
  {
    run' := TakePause(options, run, CallUserResume);
    run' := TakePause(options, run', ResetInCallback);
  }

  /** The user resumes the job, and between the reset of the I/O status and the
      end of the pause the job stops on an error: nobody pauses it any more, but
      the error stays recorded, and the next cont fails the assertion. */
  lemma LostStop(options: Options) returns (run: seq<State>)
    requires !options.mainOnly
    ensures IsRun(options, run)
    ensures var s := run[|run| - 1];
            JobOk(s.job) && s.phase.Outside? && s.job.pause.ioError && !s.job.pause.user && !ResetAsserts(s.job.pause)
  {
    run := RunInIothread(options);
    run := TakePause(options, run, PauseByUser);
    run := TakeReset(options, run);
    run := TakeError(options, run);
    run := TakePause(options, run, EndUserPause);
    RunKeeps(options, run, |run| - 1);
  }

  /** The assertion holds in every run of a job exactly if the job never leaves
      the main loop. */
  lemma ResetAssertion(options: Options)
    ensures ResetIsSafe(options) <==> options.mainOnly
  {
    if options.mainOnly {
      forall run: seq<State> | IsRun(options, run) ensures ResetAsserts(run[|run| - 1].job.pause) {
        RunKeeps(options, run, |run| - 1);
      }
    } else {
      var run := LostStop(options);
      assert IsRun(options, run) && !ResetAsserts(run[|run| - 1].job.pause);
    }
  }

  /** The job sleeps, and one of its other coroutines counts a pause for an
      error. */
  lemma Reporting(options: Options) returns (run: seq<State>)
    requires !CountsExactly(options)
    ensures IsRun(options, run)
    ensures var s := run[|run| - 1];
            && s.phase.Outside? && !s.inMain && s.job.pause == Pause(1, false, 0, false, 1)
            && s.job.status == Running && s.job.co.Yielded?
  {
    run := RunInIothread(options);
    run := TakeYield(options, run);
    run := TakeBegin(options, run);
  }

  /** Before that one makes that the user's pause, the user pauses the job, too. */
  lemma DoublePause(options: Options) returns (run: seq<State>)
    requires !CountsExactly(options)
    ensures IsRun(options, run)
    ensures var s := run[|run| - 1]; s.phase.Outside? && s.job.pause == Pause(2, true, 0, true, 0) && !s.job.co.NotStarted?
  {
    run := Reporting(options);
    run := TakePause(options, run, PauseByUser);
    run := TakeFinish(options, run);
  }

  /** When the user has resumed it, the job is still paused, and no command can
      change that: there is no pause of the user and no drained section to
      end. */
  lemma StuckPause(options: Options) returns (run: seq<State>)
    requires !CountsExactly(options)
    ensures IsRun(options, run)
    ensures var s := run[|run| - 1]; s.phase.Outside? && s.job.pause == Pause(1, false, 0, false, 0) && Excess(s.job) == 1
  {
    run := DoublePause(options);
    run := TakeReset(options, run);
    run := TakePause(options, run, EndUserPause);
  }

  /** The pause count is exact in every run of a job exactly if the job never
      leaves the main loop, or only its own coroutine reports errors. */
  lemma PauseCount(options: Options)
    ensures CountIsExact(options) <==> options.mainOnly || options.ownErrors
  {
    if CountsExactly(options) {
      forall run: seq<State> | IsRun(options, run)
        ensures var j := run[|run| - 1].job;
                j.pause.count == B(j.co.NotStarted?) + B(j.pause.user) + j.pause.drained {
        RunKeeps(options, run, |run| - 1);
      }
    } else {
      var run := DoublePause(options);
      assert IsRun(options, run) && run[|run| - 1].job.pause.count == 2;
    }
  }
}
