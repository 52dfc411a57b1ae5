/**
 * A background job (job.c, blockjob.c): its states, its coroutine and its
 * pause count.
 */
module Jobs {
  /** JobStatus. */
  datatype Status =
    | Undefined | Created | Running | Paused | Ready | Standby
    | Waiting | Pending | Aborting | Concluded | Null

  /** JobSTT, the transitions that job_state_transition_locked allows. */
  predicate Stt(s0: Status, s1: Status) {
    match s0
    case Undefined => s1 == Created
    case Created => s1 == Running || s1 == Aborting || s1 == Null
    case Running => s1 == Paused || s1 == Ready || s1 == Waiting || s1 == Aborting
    case Paused => s1 == Running
    case Ready => s1 == Standby || s1 == Waiting || s1 == Aborting
    case Standby => s1 == Ready
    case Waiting => s1 == Pending || s1 == Aborting
    case Pending => s1 == Aborting || s1 == Concluded
    case Aborting => s1 == Aborting || s1 == Concluded
    case Concluded => s1 == Null
    case Null => false
  }

  datatype Verb = VerbCancel | VerbPause | VerbResume | VerbComplete | VerbFinalize | VerbDismiss

  /** JobVerbTable. */
  predicate Accepts(verb: Verb, s: Status) {
    match verb
    case VerbCancel => s == Created || s == Running || s == Paused || s == Ready || s == Standby || s == Waiting || s == Pending
    case VerbPause => s == Created || s == Running || s == Paused || s == Ready || s == Standby
    case VerbResume => s == Created || s == Running || s == Paused || s == Ready || s == Standby
    case VerbComplete => s == Ready || s == Standby
    case VerbFinalize => s == Pending
    case VerbDismiss => s == Concluded
  }

  /** job_is_completed_locked. */
  predicate Completed(s: Status) {
    s == Waiting || s == Pending || s == Aborting || s == Concluded || s == Null
  }

  /** Where the job's coroutine is. */
  datatype Co =
    | NotStarted
    | InRun                      // driver code
    | Yielded
    | PausedAt(resume: Status)   // in job_pause_point_locked
    | Returned                   // run() is over, job_exit is scheduled
    | Exited

  /** The states that a job has been in, the latest one last. */
  datatype Trail = Start | Via(before: Trail, status: Status)

  function Last(t: Trail): Status { if t.Via? then t.status else Undefined }

  /** Every step of the way is allowed by JobSTT. */
  predicate IsPath(t: Trail) { t.Via? ==> IsPath(t.before) && Stt(Last(t.before), t.status) }

  datatype Call = Prepare | Commit | Abort | Clean

  /** The driver's callbacks, in the order they were called. */
  datatype Calls = None | After(before: Calls, call: Call)

  /** `mainOnly` says that the job's coroutine, and whoever reports an error to
      it, never leave the main loop, and `ownErrors` that nobody but its own
      coroutine reports one. */
  datatype Options = Options(autoFinalize: bool, autoDismiss: bool, mainOnly: bool, ownErrors: bool)

  /** pause_count, and what it stands for; `ioError` says that iostatus is not
      OK, and `reports` how many coroutines have counted a pause for an error and
      are yet to make it the user's. */
  datatype Pause = Pause(count: int, user: bool, drained: nat, ioError: bool, reports: nat)

  datatype Job = Job(
    status: Status, co: Co, ret: int, cancelled: bool, forceCancel: bool, deferred: bool, busy: bool,
    paused: bool, wasReady: bool, pause: Pause, options: Options, calls: Calls, trail: Trail)

  const ECANCELED: int := -125

  /** job_create. */
  function NewJob(options: Options): (j: Job)
    ensures JobOk(j)
  {
    SetStatus(
      Job(Undefined, NotStarted, 0, false, false, false, false, true, false, Pause(1, false, 0, false, 0), options, None, Start),
      Created)
  }

  lemma NewJobIs(options: Options)
    ensures var j := NewJob(options);
            && j.status == Created && j.co.NotStarted? && j.ret == 0 && !j.forceCancel
            && j.pause == Pause(1, false, 0, false, 0) && j.options == options
  {
  }

  /** job_state_transition_locked.  Its assertion holds if the trail is a path. */
  function SetStatus(j: Job, s: Status): Job { j.(status := s, trail := Via(j.trail, s)) }

  predicate Live(j: Job) { j.status != Concluded && j.status != Null }

  /** Before it is finalized, a job can only have been prepared. */
  predicate Open(calls: Calls) { calls == None || calls == After(None, Prepare) }

  /** One call of `c`, and then the job was cleaned. */
  predicate Ended(calls: Calls, c: Call) {
    calls.After? && calls.call == Clean && calls.before.After? && calls.before.call == c && Open(calls.before.before)
  }

  predicate Committed(j: Job) { Ended(j.calls, Commit) }

  predicate Aborted(j: Job) { Ended(j.calls, Abort) }

  function B(b: bool): int { if b then 1 else 0 }

  predicate CoOk(j: Job) {
    match j.co
    case NotStarted =>
      && (j.status == Created || j.status == Aborting || j.status == Concluded || j.status == Null)
      && (j.status == Created ==> !j.deferred && j.paused && !j.busy && j.ret == 0)
    case InRun => (j.status == Running || j.status == Ready) && !j.deferred && j.busy && !j.paused && j.ret == 0
    case Yielded => (j.status == Running || j.status == Ready) && !j.deferred && !j.paused && j.ret == 0
    case PausedAt(s) =>
      && (s == Running || s == Ready) && j.status == (if s == Ready then Standby else Paused)
      && !j.deferred && j.paused && j.ret == 0
    case Returned => (j.status == Running || j.status == Ready) && j.deferred && j.busy && !j.paused
    case Exited => Completed(j.status) && j.deferred
  }

  /** What the pause count should be made up of: the start that is still to come,
      the user's pause, the drained sections and the errors being reported. */
  function Counted(p: Pause, notStarted: bool): int { B(notStarted) + B(p.user) + p.drained + p.reports }

  /** No error is reported while somebody else can change the pause. */
  predicate CountsExactly(options: Options) { options.mainOnly || options.ownErrors }

  /** No pause is ended more often than it was counted, and if errors are not
      reported behind the main loop's back, none is counted too often either. */
  predicate PauseOk(p: Pause, notStarted: bool, options: Options) {
    && p.count >= Counted(p, notStarted)
    && (CountsExactly(options) ==> p.reports == 0 && p.count == Counted(p, notStarted))
    && (options.mainOnly && p.ioError ==> p.user)
  }

  /** The job was dismissed without having been started or cancelled. */
  predicate LeftEarly(t: Trail) { t.Via? && Last(t.before) == Created }

  /** The callbacks, as far as the job has got. */
  predicate CallsOk(calls: Calls, status: Status, ret: int, early: bool) {
    && (status != Concluded && status != Null ==> Open(calls))
    && (status == Created || (status == Null && early) ==> calls == None)
    && (status == Concluded || (status == Null && !early) ==> Ended(calls, Commit) || Ended(calls, Abort))
    && (Ended(calls, Commit) ==> ret == 0) && (Ended(calls, Abort) ==> ret != 0)
  }

  /** What holds of a job at any time. */
  predicate JobOk(j: Job) {
    && IsPath(j.trail) && Last(j.trail) == j.status
    && CoOk(j)
    && (j.forceCancel ==> j.cancelled)
    && PauseOk(j.pause, j.co.NotStarted?, j.options) && (j.pause.reports > 0 ==> InCoroutine(j))
    && (j.status == Created || j.status == Running || j.status == Paused ==> !j.wasReady)
    && (j.status == Ready || j.status == Standby ==> j.wasReady)
    && CallsOk(j.calls, j.status, j.ret, LeftEarly(j.trail))
  }

  // ---- The coroutine ---------------------------------------------------

  datatype CoStep =
    | PausePoint
    | Yield
    | Enter
    | Wake
    | BecomeReady
    | ErrorStop
    | StopOutside(atomic: bool)
    | FinishStop
    | Return(ret: int)

  /** A driver announces that it is ready at most once, and it waits for its other
      coroutines before it returns.  One of those that stops the job on an error
      (StopOutside) enters it if it sleeps, and releases job_mutex to do so; in
      the main loop nothing can happen before it has the mutex again. */
  predicate CanStep(j: Job, step: CoStep) {
    match step
    case PausePoint => j.co.InRun? && j.pause.count > 0 && !j.forceCancel
    case Yield => j.co.InRun? && j.pause.count == 0 && !j.forceCancel
    case Enter => (j.co.Yielded? || j.co.PausedAt?) && !j.busy
    case Wake => (j.co.Yielded? || j.co.PausedAt?) && j.busy
    case BecomeReady => j.co.InRun? && !j.wasReady
    case ErrorStop => j.co.InRun?
    case StopOutside(atomic) =>
      && InCoroutine(j) && !j.options.ownErrors
      && (!atomic ==> j.co.Yielded? && !j.busy && !j.pause.user && !j.options.mainOnly)
    case FinishStop => j.pause.reports > 0
    case Return(_) => j.co.InRun? && j.pause.reports == 0
  }

  /** block_job_error_action, when it decides to stop the job. */
  function StopOnError(p: Pause): Pause {
    if p.user then p.(ioError := true) else p.(count := p.count + 1, user := true, ioError := true)
  }

  /** The same in two steps: the pause is counted, and later made the user's. */
  function BeginStop(p: Pause): Pause { p.(count := p.count + 1, reports := p.reports + 1) }

  function EndStop(p: Pause): Pause
    requires p.reports > 0
  {
    p.(user := true, ioError := true, reports := p.reports - 1)
  }

  function CoApply(j: Job, step: CoStep): Job
    requires CanStep(j, step)
  {
    match step
    case PausePoint =>
      SetStatus(j, if j.status == Ready then Standby else Paused).(paused := true, busy := false, co := PausedAt(j.status))
    case Yield => j.(busy := false, co := Yielded)
    case Enter => j.(busy := true)
    case Wake =>
      if j.co.PausedAt? then SetStatus(j.(paused := false), j.co.resume).(co := InRun) else j.(co := InRun)
    case BecomeReady => SetStatus(j, Ready).(wasReady := true)
    case ErrorStop => j.(pause := StopOnError(j.pause))
    case StopOutside(atomic) =>
      if !atomic then j.(pause := BeginStop(j.pause), busy := true)
      else j.(pause := StopOnError(j.pause), busy := j.busy || (j.co.Yielded? && !j.pause.user))
    case FinishStop => j.(pause := EndStop(j.pause))
    case Return(ret) => j.(ret := ret, deferred := true, busy := true, co := Returned)
  }

  lemma PausePointKeeps(j: Job)
    requires JobOk(j) && CanStep(j, PausePoint)
    ensures var r := SetStatus(j, if j.status == Ready then Standby else Paused)
                       .(paused := true, busy := false, co := PausedAt(j.status));
            JobOk(r) && EnvRely(j, r)
  {
  }

  lemma WakeKeeps(j: Job)
    requires JobOk(j) && j.co.PausedAt? && j.busy
    ensures var r := SetStatus(j.(paused := false), j.co.resume).(co := InRun); JobOk(r) && EnvRely(j, r)
  {
  }

  lemma WakeYieldedKeeps(j: Job)
    requires JobOk(j) && j.co.Yielded? && j.busy
    ensures JobOk(j.(co := InRun)) && EnvRely(j, j.(co := InRun))
  {
  }

  lemma ReadyKeeps(j: Job)
    requires JobOk(j) && CanStep(j, BecomeReady)
    ensures var r := SetStatus(j, Ready).(wasReady := true); JobOk(r) && EnvRely(j, r)
  {
  }

  lemma ErrorKeeps(j: Job, busy: bool)
    requires JobOk(j) && InCoroutine(j) && (j.busy ==> busy)
    ensures var r := j.(pause := StopOnError(j.pause), busy := busy); JobOk(r) && EnvRely(j, r)
  {
  }

  lemma BeginKeeps(j: Job)
    requires JobOk(j) && InCoroutine(j) && !j.pause.user && !CountsExactly(j.options)
    ensures var r := j.(pause := BeginStop(j.pause), busy := true); JobOk(r) && EnvRely(j, r)
  {
  }

  lemma FinishKeeps(j: Job)
    requires JobOk(j) && j.pause.reports > 0
    ensures var r := j.(pause := EndStop(j.pause)); JobOk(r) && EnvRely(j, r)
  {
  }

  lemma ReturnKeeps(j: Job, ret: int)
    requires JobOk(j) && j.co.InRun? && j.pause.reports == 0
    ensures var r := j.(ret := ret, deferred := true, busy := true, co := Returned); JobOk(r) && EnvRely(j, r)
  {
  }

  lemma YieldKeeps(j: Job)
    requires JobOk(j) && j.co.InRun?
    ensures var r := j.(busy := false, co := Yielded); JobOk(r) && EnvRely(j, r)
  {
  }

  lemma EnterKeeps(j: Job)
    requires JobOk(j) && (j.co.Yielded? || j.co.PausedAt?)
    ensures JobOk(j.(busy := true)) && EnvRely(j, j.(busy := true))
  {
  }

  /** The coroutine's steps keep a job well-formed. */
  lemma CoKeeps(j: Job, step: CoStep)
    requires JobOk(j) && CanStep(j, step)
    ensures JobOk(CoApply(j, step)) && EnvRely(j, CoApply(j, step))
  {
    match step
    case PausePoint => PausePointKeeps(j);
    case Wake =>
      if j.co.PausedAt? {
        WakeKeeps(j);
      } else {
        WakeYieldedKeeps(j);
      }
    case BecomeReady => ReadyKeeps(j);
    case ErrorStop => ErrorKeeps(j, j.busy);
    case StopOutside(atomic) =>
      if atomic {
        ErrorKeeps(j, j.busy || (j.co.Yielded? && !j.pause.user));
      } else {
        BeginKeeps(j);
      }
    case FinishStop => FinishKeeps(j);
    case Return(ret) => ReturnKeeps(j, ret);
    case Yield => YieldKeeps(j);
    case Enter => EnterKeeps(j);
  }

  predicate InCoroutine(j: Job) { j.co.InRun? || j.co.Yielded? || j.co.PausedAt? }

  /** What can happen to a job while the main loop does something else. */
  predicate Steady(j: Job, j': Job) {
    && j'.calls == j.calls && j'.options == j.options
    && (j.cancelled ==> j'.cancelled) && (j.forceCancel ==> j'.forceCancel)
    && (if InCoroutine(j) then InCoroutine(j') || j'.co.Returned?
        else j'.co == j.co && j'.status == j.status && j'.ret == j.ret && j'.deferred == j.deferred)
  }

  predicate EnvRely(j: Job, j': Job) {
    && Steady(j, j') && j'.cancelled == j.cancelled && j'.forceCancel == j.forceCancel
    && (j.pause.user ==> j'.pause.user) && (j.pause.ioError ==> j'.pause.ioError)
    && (j'.pause.user ==> j.pause.user || j'.pause.ioError) && j'.pause.drained == j.pause.drained
    && (j.pause.user ==> j'.pause.count == j.pause.count)
    && (!InCoroutine(j) ==> j' == j)
  }

  // ---- Pausing ---------------------------------------------------------

  /** job_pause_locked and job_resume_locked, for drained sections. */
  function DrainBegin(p: Pause): Pause { p.(count := p.count + 1, drained := p.drained + 1) }

  function DrainEnd(p: Pause): Pause
    requires p.drained > 0
  {
    p.(count := p.count - 1, drained := p.drained - 1)
  }

  function UserPause(p: Pause): Pause { p.(count := p.count + 1, user := true) }

  /** What block_job_iostatus_reset_locked asserts. */
  predicate ResetAsserts(p: Pause) { p.ioError ==> p.user && p.count > 0 }

  function ResetIoStatus(p: Pause): Pause
    requires ResetAsserts(p)
  {
    p.(ioError := false)
  }

  /** The end of job_user_resume_locked and of job_cancel_async_locked. */
  function UserResumed(p: Pause): Pause { p.(user := false, count := p.count - 1) }

  /** Each of these keeps the pause count right, and the assertions before a
      decrement hold. */
  lemma PauseKept(p: Pause, notStarted: bool, options: Options)
    requires PauseOk(p, notStarted, options)
    ensures p.count >= 0 && PauseOk(DrainBegin(p), notStarted, options) && PauseOk(StopOnError(p), notStarted, options)
    ensures p.drained > 0 ==> p.count > 0 && PauseOk(DrainEnd(p), notStarted, options)
    ensures !p.user ==> PauseOk(UserPause(p), notStarted, options)
    ensures p.user ==> p.count > 0 && PauseOk(ResetIoStatus(p), notStarted, options)
    ensures p.user && !(options.mainOnly && p.ioError) ==> PauseOk(UserResumed(p), notStarted, options)
    ensures notStarted ==> p.count > 0 && PauseOk(p.(count := p.count - 1), false, options)
    ensures !CountsExactly(options) ==> PauseOk(BeginStop(p), notStarted, options)
    ensures p.reports > 0 ==> PauseOk(EndStop(p), notStarted, options)
  {
  }

  lemma PausedOk(j: Job, p: Pause)
    requires JobOk(j) && PauseOk(p, j.co.NotStarted?, j.options) && p.reports == j.pause.reports
    ensures JobOk(j.(pause := p)) && Steady(j, j.(pause := p))
  {
  }

  lemma ResetOk(j: Job)
    requires JobOk(j) && j.pause.user
    ensures j.pause.count > 0
    ensures var r := j.(pause := ResetIoStatus(j.pause)); JobOk(r) && Steady(j, r)
  {
    PauseKept(j.pause, j.co.NotStarted?, j.options);
  }

  lemma ResumedOk(j: Job)
    requires JobOk(j) && j.pause.user && (j.options.mainOnly ==> !j.pause.ioError)
    ensures j.pause.count > 0
    ensures var r := j.(pause := UserResumed(j.pause)); JobOk(r) && Steady(j, r)
  {
    PauseKept(j.pause, j.co.NotStarted?, j.options);
  }

  lemma CancelledOk(j: Job, force: bool)
    requires JobOk(j)
    ensures var r := j.(cancelled := true, forceCancel := j.forceCancel || force); JobOk(r) && Steady(j, r)
  {
  }

  /** job_start. */
  function Started(j: Job): (r: Job) {
    SetStatus(j, Running).(co := InRun, pause := j.pause.(count := j.pause.count - 1), busy := true, paused := false)
  }

  // ---- Completion ------------------------------------------------------

  /** job_update_rc_locked. */
  function UpdateRc(j: Job): (r: Job)
    ensures r.ret != 0 <==> j.ret != 0 || j.forceCancel
    ensures r.ret != 0 ==> r.status == Aborting
    ensures r.ret == 0 ==> r == j
    ensures r.pause == j.pause && r.options == j.options && r.co == j.co
  {
    if j.ret == 0 && !j.forceCancel then j
    else SetStatus(j.(ret := if j.ret == 0 then ECANCELED else j.ret), Aborting)
  }

  /** job_do_dismiss_locked; the job has left its transaction. */
  function Dismissed(j: Job): (r: Job) { SetStatus(j.(busy := false, paused := false, deferred := true), Null) }

  lemma DismissedOk(j: Job)
    requires JobOk(j) && (j.status == Concluded || j.status == Created)
    ensures JobOk(Dismissed(j)) && Dismissed(j).status == Null && Dismissed(j).calls == j.calls
  {
  }

  /** The callbacks of job_finalize_single_locked: commit or abort, then clean. */
  function CalledBack(j: Job): (r: Job) {
    j.(calls := After(After(j.calls, if j.ret == 0 then Commit else Abort), Clean))
  }

  /** job_conclude_locked. */
  function Conclude(j: Job): (r: Job)
    ensures r.calls == j.calls && !Live(r) && r.ret == j.ret
    ensures r.pause == j.pause && r.options == j.options && r.co == j.co
    ensures r.status == Null <==> j.options.autoDismiss || j.co.NotStarted?
  {
    var r := SetStatus(j, Concluded);
    if r.options.autoDismiss || r.co.NotStarted?
    then SetStatus(r.(busy := false, paused := false, deferred := true), Null)
    else r
  }

  /** job_exit, up to the call of job_completed_locked. */
  function Exit(j: Job): Job { if j.co.Returned? then j.(busy := false, co := Exited) else j }

  predicate CanComplete(j: Job) { j.co.Returned? || (j.co.NotStarted? && j.status == Created) }

  /** A job that fails, or was cancelled by force, goes to ABORTING from any state
      in which it can complete. */
  lemma ExitAborts(j: Job)
    requires JobOk(j) && CanComplete(j) && (j.ret != 0 || j.forceCancel)
    ensures JobOk(UpdateRc(Exit(j))) && UpdateRc(Exit(j)).status == Aborting && UpdateRc(Exit(j)).calls == j.calls
  {
  }

  /** One that ends well goes to WAITING. */
  lemma ExitWaits(j: Job)
    requires JobOk(j) && j.co.Returned? && j.ret == 0 && !j.forceCancel
    ensures JobOk(SetStatus(Exit(j), Waiting))
  {
  }

  lemma PendingOk(j: Job)
    requires JobOk(j) && j.status == Waiting
    ensures JobOk(SetStatus(j, Pending))
  {
  }

  lemma StartedOk(j: Job)
    requires JobOk(j) && j.status == Created
    ensures j.pause.count > 0 && JobOk(Started(j))
  {
  }

  lemma UpdateRcKeeps(j: Job)
    requires JobOk(j) && Live(j) && Completed(j.status)
    ensures JobOk(UpdateRc(j)) && UpdateRc(j).calls == j.calls
    ensures UpdateRc(j).status == j.status || UpdateRc(j).status == Aborting
  {
    if j.ret != 0 || j.forceCancel {
      AbortingOk(j, if j.ret == 0 then ECANCELED else j.ret);
    }
  }

  lemma AbortingOk(j: Job, ret: int)
    requires JobOk(j) && (j.co.Exited? || j.co.NotStarted?) && Live(j) && ret != 0 && Stt(j.status, Aborting)
    ensures JobOk(SetStatus(j.(ret := ret), Aborting))
  {
  }

  lemma ConcludeKeeps(j: Job)
    requires JobOk(j) && (j.status == Pending || (j.status == Aborting && j.ret != 0))
    ensures JobOk(Conclude(CalledBack(j))) && !Live(Conclude(CalledBack(j)))
    ensures if j.ret == 0 then Committed(Conclude(CalledBack(j))) else Aborted(Conclude(CalledBack(j)))
  {
  }

  /** A job that is finalized gets exactly one of commit and abort, according to
      its result, and then clean. */
  lemma FinalizedOk(j: Job)
    requires JobOk(j) && Live(j) && Completed(j.status) && (j.status == Pending || j.ret != 0 || j.forceCancel)
    ensures UpdateRc(j).status == Pending || UpdateRc(j).status == Aborting
    ensures var r := Conclude(CalledBack(UpdateRc(j)));
            && JobOk(r) && !Live(r)
            && (if j.ret == 0 && !j.forceCancel then Committed(r) else Aborted(r))
  {
    UpdateRcKeeps(j);
    ConcludeKeeps(UpdateRc(j));
  }

  /** job_finalize_single_locked, as far as the job itself is concerned. */
  method FinalizeJob(j: Job) returns (r: Job)
    requires JobOk(j) && Live(j) && Completed(j.status) && (j.status == Pending || j.ret != 0 || j.forceCancel)
    ensures JobOk(r) && !Live(r)
    ensures if j.ret == 0 && !j.forceCancel then Committed(r) else Aborted(r)
    ensures r.status == Null <==> j.options.autoDismiss || j.co.NotStarted?
  {
    FinalizedOk(j);
    r := UpdateRc(j);
    r := CalledBack(r);
    r := Conclude(r);
  }

  /** job_prepare_locked, with what the driver's prepare returns. */
  function Prepared(j: Job, ret: int): Job { UpdateRc(j.(calls := After(j.calls, Prepare), ret := ret)) }

  lemma PreparedOk(j: Job, ret: int)
    requires JobOk(j) && j.status == Pending && j.ret == 0 && !j.forceCancel && j.calls == None
    ensures JobOk(Prepared(j, ret))
  {
    var r := j.(calls := After(j.calls, Prepare), ret := ret);
    assert JobOk(r);
    UpdateRcKeeps(r);
  }

  method PrepareJob(j: Job, ret: int) returns (r: Job)
    requires JobOk(j) && j.status == Pending && j.ret == 0 && !j.forceCancel && j.calls == None
    ensures JobOk(r) && r.ret == ret && !r.forceCancel && r.calls == After(None, Prepare)
    ensures r.status == if ret == 0 then Pending else Aborting
  {
    PreparedOk(j, ret);
    r := Prepared(j, ret);
  }

  /** job_do_dismiss_locked for a concluded job. */
  method DismissJob(j: Job) returns (r: Job)
    requires JobOk(j) && j.status == Concluded
    ensures JobOk(r) && r.status == Null && r.calls == j.calls && r.ret == j.ret
  {
    DismissedOk(j);
    r := Dismissed(j);
  }

  /** job_exit and job_update_rc_locked for a job that failed or was cancelled. */
  method FailJob(j: Job) returns (r: Job)
    requires JobOk(j) && CanComplete(j) && (j.ret != 0 || j.forceCancel)
    ensures JobOk(r) && r.status == Aborting && r.ret != 0 && r.calls == j.calls
  {
    ExitAborts(j);
    r := UpdateRc(Exit(j));
  }

  /** The same for a job that ended well, up to WAITING. */
  method SucceedJob(j: Job) returns (r: Job)
    requires JobOk(j) && j.co.Returned? && j.ret == 0 && !j.forceCancel
    ensures JobOk(r) && r.status == Waiting && r.ret == 0 && !r.forceCancel && r.calls == j.calls && r.options == j.options
  {
    ExitWaits(j);
    r := SetStatus(Exit(j), Waiting);
  }
}
