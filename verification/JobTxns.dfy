/**
 * Transactional groups of jobs (job.c).  Functions of the main loop are methods;
 * wherever they release job_mutex, the jobs' coroutines may take any steps.
 */
module JobTxns {
  import opened Jobs
  import Opt = Options
  import opened Sequences

  type JobId = nat

  predicate AllOk(jobs: map<JobId, Job>) { forall id {:trigger JobOk(jobs[id])} | id in jobs :: JobOk(jobs[id]) }

  /** A transaction lists the jobs that are not concluded. */
  predicate Listed(jobs: map<JobId, Job>, list: seq<JobId>) {
    && NoDup(list) && (forall id <- list :: id in jobs)
    && forall id <- jobs :: id in list <==> Live(jobs[id])
  }

  predicate SteadyAll(a: map<JobId, Job>, b: map<JobId, Job>) {
    a.Keys == b.Keys && forall id <- a :: Steady(a[id], b[id])
  }

  predicate EnvAll(a: map<JobId, Job>, b: map<JobId, Job>) {
    a.Keys == b.Keys && forall id <- a :: EnvRely(a[id], b[id])
  }

  /** Only `id` is touched by more than its coroutine. */
  predicate Touches(a: map<JobId, Job>, b: map<JobId, Job>, id: JobId) {
    && a.Keys == b.Keys && id in a && Steady(a[id], b[id])
    && forall k <- a :: k != id ==> EnvRely(a[k], b[k])
  }

  predicate Bad(j: Job) { j.ret != 0 || j.forceCancel }

  predicate NoneCommitted(jobs: map<JobId, Job>) { forall id <- jobs :: !Committed(jobs[id]) }

  predicate NoneAborted(jobs: map<JobId, Job>) { forall id <- jobs :: !Aborted(jobs[id]) }

  /** No job is committed while another one is aborted. */
  predicate AllOrNothing(jobs: map<JobId, Job>) {
    forall a <- jobs, b <- jobs :: !(Committed(jobs[a]) && Aborted(jobs[b]))
  }

  /** As long as nothing has gone wrong, completed jobs were successful, and they
      become pending all at once. */
  predicate RestOk(jobs: map<JobId, Job>, list: seq<JobId>) {
    && (forall id <- list :: id in jobs && jobs[id].calls == None &&
          (Completed(jobs[id].status) ==>
             jobs[id].ret == 0 && !jobs[id].forceCancel && (jobs[id].status == Waiting || jobs[id].status == Pending)))
    && (forall a <- list, b <- list :: jobs[a].status == Pending ==> jobs[b].status == Pending)
  }

  /** While job `who` winds up the transaction, all the others are cancelled. */
  predicate AbortOk(jobs: map<JobId, Job>, list: seq<JobId>, who: JobId, split: bool) {
    && (forall id <- list :: id in jobs && id != who ==> jobs[id].forceCancel)
    && (who in list && who in jobs ==>
          if Completed(jobs[who].status) then Bad(jobs[who]) || (split && jobs[who].status == Pending)
          else jobs[who].forceCancel)
    && (forall id <- jobs :: Committed(jobs[id]) ==> split && id == who)
  }

  /** The first job in the list whose prepare fails. */
  function FirstFailing(list: seq<JobId>, prepare: JobId -> int): (r: Opt.Option<JobId>)
    ensures r.Some? ==> r.value in list && prepare(r.value) != 0
    ensures r.None? ==> forall k <- list :: prepare(k) == 0
  {
    if list == [] then Opt.None
    else if prepare(list[0]) != 0 then Opt.Some(list[0])
    else FirstFailing(list[1..], prepare)
  }

  /** Either nothing has gone wrong, and jobs are committed only together, or the
      transaction is wound up. */
  predicate TxnOk(jobs: map<JobId, Job>, list: seq<JobId>, aborting: bool, who: JobId, split: bool) {
    if aborting then AbortOk(jobs, list, who, split)
    else RestOk(jobs, list) && NoneAborted(jobs) && !split && (list != [] ==> NoneCommitted(jobs))
  }

  /** No job of the list is running any more. */
  predicate AllDone(jobs: map<JobId, Job>, list: seq<JobId>) {
    forall k <- list :: k in jobs && Completed(jobs[k].status)
  }

  /** A transaction that job `id` can start to wind up. */
  predicate PreAbort(jobs: map<JobId, Job>, list: seq<JobId>, id: JobId, split: bool) {
    && id in list && id in jobs && NoneCommitted(jobs)
    && (if Completed(jobs[id].status) then Bad(jobs[id]) || (split && jobs[id].status == Pending) else jobs[id].forceCancel)
  }

  /** What may become of a job while its transaction is wound up: it can go on,
      and it can fail. */
  predicate Waited(j: Job, j': Job) {
    && j'.calls == j.calls && j'.forceCancel == j.forceCancel && Live(j') == Live(j)
    && (Completed(j.status) ==> j' == j.(pause := j'.pause))
    && (!Completed(j.status) && Completed(j'.status) ==> Bad(j'))
  }

  predicate WaitedAll(a: map<JobId, Job>, b: map<JobId, Job>) {
    a.Keys == b.Keys && forall id <- a :: Waited(a[id], b[id])
  }

  /** Of the jobs in `all`, those that have left the list were aborted, except
      that job `who` was committed if nothing was wrong with it. */
  predicate WoundUp(jobs: map<JobId, Job>, list: seq<JobId>, all: seq<JobId>, who: JobId, bad: bool) {
    && (forall k <- all :: k in jobs && (k !in list ==> if k != who || bad then Aborted(jobs[k]) else Committed(jobs[k])))
    && (who in list ==> who in jobs && Bad(jobs[who]) == bad)
  }

  /** The state in which a transaction is while it is wound up. */
  predicate Winding(jobs: map<JobId, Job>, list: seq<JobId>, all: seq<JobId>, who: JobId, split: bool, bad: bool) {
    AllOk(jobs) && Listed(jobs, list) && AbortOk(jobs, list, who, split) && WoundUp(jobs, list, all, who, bad)
  }

  /** Every job in the list is pending and has been successful so far. */
  predicate AllPending(jobs: map<JobId, Job>, list: seq<JobId>) {
    forall k <- list :: k in jobs && jobs[k].status == Pending && !Bad(jobs[k])
  }

  /** No job has been finalized yet. */
  predicate Untouched(jobs: map<JobId, Job>) { NoneCommitted(jobs) && NoneAborted(jobs) }

  /** From the `i`th on, the jobs in the list have not been prepared. */
  predicate Unprepared(jobs: map<JobId, Job>, list: seq<JobId>, i: nat) {
    forall m :: i <= m < |list| ==> list[m] in jobs && jobs[list[m]].calls == None
  }

  /** How the jobs in `all` end when job `id` finalizes them and prepare has
      failed for the given one, if any. */
  predicate FinalizedAs(jobs: map<JobId, Job>, all: seq<JobId>, id: JobId, failed: Opt.Option<JobId>) {
    if failed.None? then forall k <- all :: k in jobs && Committed(jobs[k])
    else WoundUp(jobs, [], all, id, failed.value == id)
  }

  /** The same, except for job `failed`, whose prepare has failed. */
  predicate FailedOne(jobs: map<JobId, Job>, list: seq<JobId>, failed: JobId) {
    && failed in list
    && forall k <- list :: k in jobs && Completed(jobs[k].status) &&
                           if k == failed then jobs[k].ret != 0 else jobs[k].status == Pending && !Bad(jobs[k])
  }

  // ---- What the coroutines cannot disturb ------------------------------

  lemma SteadyTrans(a: Job, b: Job, c: Job)
    requires Steady(a, b) && Steady(b, c)
    ensures Steady(a, c)
    ensures EnvRely(a, b) && EnvRely(b, c) ==> EnvRely(a, c)
  {
  }

  lemma SteadyKeepsLive(a: Job, b: Job)
    requires JobOk(a) && JobOk(b) && Steady(a, b)
    ensures Live(a) == Live(b) && Completed(a.status) == Completed(b.status)
    ensures Completed(a.status) ==> b.status == a.status && b.ret == a.ret
    ensures Bad(a) && Completed(a.status) ==> Bad(b)
  {
  }

  lemma SteadyListed(a: map<JobId, Job>, b: map<JobId, Job>, list: seq<JobId>)
    requires AllOk(a) && AllOk(b) && SteadyAll(a, b) && Listed(a, list)
    ensures Listed(b, list)
  {
    forall id <- b ensures id in list <==> Live(b[id]) {
      SteadyKeepsLive(a[id], b[id]);
    }
  }

  /** Jobs go on, but no completed one is cancelled by force. */
  predicate Quiet(a: map<JobId, Job>, b: map<JobId, Job>) {
    SteadyAll(a, b) && forall id <- a :: Completed(a[id].status) ==> b[id].forceCancel == a[id].forceCancel
  }

  lemma QuietRest(a: map<JobId, Job>, b: map<JobId, Job>, list: seq<JobId>)
    requires AllOk(a) && AllOk(b) && Quiet(a, b) && RestOk(a, list)
    ensures RestOk(b, list)
  {
    forall id <- list
      ensures Completed(b[id].status) == Completed(a[id].status) && b[id].calls == a[id].calls
      ensures Completed(a[id].status) ==> b[id].status == a[id].status && b[id].ret == a[id].ret {
      SteadyKeepsLive(a[id], b[id]);
    }
    forall x, y | x in list && y in list && b[x].status == Pending ensures b[y].status == Pending {
      assert a[x].status == Pending;
      assert a[y].status == Pending;
    }
  }

  lemma QuietTxn(a: map<JobId, Job>, b: map<JobId, Job>, list: seq<JobId>, aborting: bool, who: JobId, split: bool)
    requires AllOk(a) && AllOk(b) && Quiet(a, b) && Listed(a, list) && TxnOk(a, list, aborting, who, split)
    ensures Listed(b, list) && TxnOk(b, list, aborting, who, split)
  {
    SteadyListed(a, b, list);
    if aborting {
      SteadyAbort(a, b, list, who, split);
    } else {
      QuietRest(a, b, list);
    }
  }

  lemma SteadyAbort(a: map<JobId, Job>, b: map<JobId, Job>, list: seq<JobId>, who: JobId, split: bool)
    requires AllOk(a) && AllOk(b) && SteadyAll(a, b) && AbortOk(a, list, who, split)
    ensures AbortOk(b, list, who, split)
  {
    if who in b {
      SteadyKeepsLive(a[who], b[who]);
    }
  }

  class JobTxn {
    var jobs: map<JobId, Job>
    var list: seq<JobId>
    var aborting: bool
    var who: JobId       // the job that winds up the transaction
    var split: bool      // another job's prepare has failed

    /** Well-formed at any time. */
    ghost predicate Core()
      reads this
    {
      AllOk(jobs) && Listed(jobs, list)
    }

    /** Holds whenever the main loop is not inside one of the methods, and while
        it waits in the middle of an abort. */
    ghost predicate Valid()
      reads this
    {
      Core() && TxnOk(jobs, list, aborting, who, split)
    }

    /** The main loop is not in the middle of winding up the transaction. */
    ghost predicate Idle()
      reads this
    {
      !aborting || list == []
    }

    /** A point where job_mutex is not held: coroutines in iothreads, and `own`,
        take any number of steps. */
    method Interleave(own: Opt.Option<JobId>)
      requires AllOk(jobs)
      modifies this`jobs
      ensures AllOk(jobs) && EnvAll(old(jobs), jobs)
      ensures forall id <- jobs :: jobs[id].options.mainOnly && own != Opt.Some(id) ==> jobs[id] == old(jobs)[id]
    {
      var more: nat := *;
      while more > 0
        invariant AllOk(jobs) && EnvAll(old(jobs), jobs)
        invariant forall id <- jobs :: jobs[id].options.mainOnly && own != Opt.Some(id) ==> jobs[id] == old(jobs)[id]
      {
        var id: JobId, step: CoStep := *, *;
        if id in jobs && (!jobs[id].options.mainOnly || own == Opt.Some(id)) && CanStep(jobs[id], step) {
          StepAll(old(jobs), jobs, id, step);
          jobs := jobs[id := CoApply(jobs[id], step)];
        }
        more := more - 1;
      }
    }

    /** job_enter_cond_locked: a coroutine in the main loop runs right away. */
    method EnterCond(id: JobId)
      requires AllOk(jobs) && id in jobs
      modifies this`jobs
      ensures AllOk(jobs) && EnvAll(old(jobs), jobs)
    {
      if CanStep(jobs[id], Enter) {
        EnvSelf(jobs);
        StepAll(jobs, jobs, id, Enter);
        jobs := jobs[id := CoApply(jobs[id], Enter)];
        label entered:
        Interleave(Opt.Some(id));
        EnvTrans(old(jobs), old@entered(jobs), jobs);
      } else {
        EnvSelf(jobs);
      }
    }

    /** The callback user_resume: block_job_iostatus_reset_locked asserts that
        the user has paused the job. */
    method CallUserResume(id: JobId)
      requires AllOk(jobs) && id in jobs && jobs[id].pause.user
      modifies this`jobs
      ensures AllOk(jobs) && Touches(old(jobs), jobs, id)
      ensures jobs[id].pause.user && (jobs[id].options.mainOnly ==> !jobs[id].pause.ioError)
      ensures jobs[id].forceCancel == old(jobs)[id].forceCancel && jobs[id].pause.drained == old(jobs)[id].pause.drained
      ensures jobs[id].pause.count == old(jobs)[id].pause.count
    {
      Interleave(Opt.None);
      ghost var j0 := jobs;
      ResetOk(jobs[id]);
      var j := jobs[id].(pause := ResetIoStatus(jobs[id].pause));
      TouchOne(jobs, id, j);
      jobs := jobs[id := j];
      ghost var j1 := jobs;
      Interleave(Opt.None);
      EnvTouches(old(jobs), j0, id);
      EnvTouches(j1, jobs, id);
      TouchesTrans(old(jobs), j0, j1, id);
      TouchesTrans(old(jobs), j1, jobs, id);
    }

    /** The end of the user's pause; both callers assert that the count is
        positive. */
    method EndUserPause(id: JobId)
      requires AllOk(jobs) && id in jobs && jobs[id].pause.user
      modifies this`jobs
      ensures AllOk(jobs) && Touches(old(jobs), jobs, id) && !jobs[id].pause.user
      ensures jobs[id].forceCancel == old(jobs)[id].forceCancel && jobs[id].pause.drained == old(jobs)[id].pause.drained
      ensures jobs[id].pause.count == old(jobs)[id].pause.count - 1
    {
      CallUserResume(id);
      ghost var j0 := jobs;
      ResumedOk(jobs[id]);
      assert jobs[id].pause.count > 0;
      var j := jobs[id].(pause := UserResumed(jobs[id].pause));
      TouchOne(jobs, id, j);
      jobs := jobs[id := j];
      TouchesTrans(old(jobs), j0, jobs, id);
    }

    /** job_cancel_async_locked.  The driver may turn a soft cancel into a forced
        one, but not the other way round, and does so for a job that is not
        ready. */
    method CancelAsync(id: JobId, force: bool)
      requires Core() && id in list
      modifies this`jobs
      ensures Core() && Touches(old(jobs), jobs, id)
      ensures force || old(jobs)[id].co.NotStarted? ==> jobs[id].forceCancel
      ensures (jobs[id].cancelled || jobs[id].deferred) && !jobs[id].pause.user
    {
      var f := StartCancel(id, force);
      ghost var j0 := jobs;
      MarkCancelled(id, f);
      TouchesTrans(old(jobs), j0, jobs, id);
      TouchesListed(old(jobs), jobs, list, id);
    }

    /** The driver is asked, and the user's pause ends. */
    method StartCancel(id: JobId, force: bool) returns (f: bool)
      requires AllOk(jobs) && id in jobs
      modifies this`jobs
      ensures AllOk(jobs) && Touches(old(jobs), jobs, id) && !jobs[id].pause.user
      ensures force || old(jobs)[id].co.NotStarted? ==> f
    {
      f := CallCancel(id, force);
      ghost var j0 := jobs;
      EndPauseOf(id);
      TouchesTrans(old(jobs), j0, jobs, id);
    }

    method EndPauseOf(id: JobId)
      requires AllOk(jobs) && id in jobs
      modifies this`jobs
      ensures AllOk(jobs) && Touches(old(jobs), jobs, id) && !jobs[id].pause.user
    {
      if jobs[id].pause.user {
        EndUserPause(id);
      } else {
        EnvSelf(jobs);
        EnvTouches(jobs, jobs, id);
      }
    }

    /** A soft request comes too late for a job that is already done. */
    method MarkCancelled(id: JobId, force: bool)
      requires AllOk(jobs) && id in jobs
      modifies this`jobs
      ensures AllOk(jobs) && Touches(old(jobs), jobs, id)
      ensures jobs[id].forceCancel <==> force || old(jobs)[id].forceCancel
      ensures jobs[id].cancelled <==> force || old(jobs)[id].cancelled || !old(jobs)[id].deferred
      ensures jobs[id].deferred == old(jobs)[id].deferred && jobs[id].pause == old(jobs)[id].pause
    {
      EnvSelf(jobs);
      EnvTouches(jobs, jobs, id);
      if force || !jobs[id].deferred {
        CancelledOk(jobs[id], force);
        var j := jobs[id].(cancelled := true, forceCancel := jobs[id].forceCancel || force);
        TouchOne(jobs, id, j);
        jobs := jobs[id := j];
      }
    }

    /** driver->cancel. */
    method CallCancel(id: JobId, force: bool) returns (f: bool)
      requires AllOk(jobs) && id in jobs
      modifies this`jobs
      ensures AllOk(jobs) && Touches(old(jobs), jobs, id)
      ensures force || old(jobs)[id].co.NotStarted? ==> f
    {
      Interleave(Opt.None);
      ghost var j0 := jobs;
      var overrides: bool := *;
      assert JobOk(jobs[id]);
      f := force || overrides || !(jobs[id].status == Ready || jobs[id].status == Standby);
      Interleave(Opt.None);
      EnvTrans(old(jobs), j0, jobs);
      EnvTouches(old(jobs), jobs, id);
    }

    /** job_finalize_single_locked for the first job of the list: commit or abort
        according to its result, then clean, and it leaves the transaction. */
    method FinalizeFirst()
      requires Core() && list != [] && Completed(jobs[list[0]].status)
      requires jobs[list[0]].status == Pending || Bad(jobs[list[0]])
      modifies this`jobs, this`list
      ensures Core() && list == old(list)[1..] && FirstDone(old(jobs), jobs, old(list))
    {
      var id := list[0];
      Interleave(Opt.None);
      CompletedFixed(old(jobs)[id], jobs[id]);
      var j := FinalizeJob(jobs[id]);
      FirstLeaves(old(jobs), jobs, list, j);
      jobs := jobs[id := j];
      list := list[1..];
    }

    /** The wait in job_finish_sync_locked: coroutines run anywhere, jobs of this
        transaction exit, and drained sections begin and end.  It may take forever; `done` says whether it is
        over. */
    method Wait(id: JobId) returns (done: bool)
      requires Valid() && aborting && id in list
      modifies this`jobs
      ensures Valid() && WaitedAll(old(jobs), jobs)
      ensures done <==> Completed(jobs[id].status)
    {
      jobs := LetThemRun(jobs, list, who, split);
      done := Completed(jobs[id].status);
    }

    /** The first loop of job_completed_txn_abort_locked. */
    method CancelOthers(id: JobId)
      requires Core() && id in list
      modifies this`jobs
      ensures Core() && SteadyAll(old(jobs), jobs) && EnvRely(old(jobs)[id], jobs[id])
      ensures forall k <- list :: k in jobs && (k != id ==> jobs[k].forceCancel)
    {
      var i := 0;
      while i < |list|
        invariant 0 <= i <= |list| && Core() && Cancelling(old(jobs), jobs, list, i, id)
      {
        ghost var j0 := jobs;
        if list[i] != id {
          CancelAsync(list[i], true);
        }
        CancelledNext(old(jobs), j0, jobs, list, i, id);
        i := i + 1;
      }
    }

    /** The second loop, first half of a turn: the first job has to end.  It has
        been cancelled, so it is no accident if it does. */
    method AwaitFirst(ghost all: seq<JobId>, ghost bad: bool) returns (done: bool)
      requires Valid() && aborting && list != [] && WoundUp(jobs, list, all, who, bad)
      modifies this`jobs
      ensures Valid() && jobs.Keys == old(jobs).Keys && WoundUp(jobs, list, all, who, bad)
      ensures done ==> Completed(jobs[list[0]].status)
      ensures Completed(old(jobs)[list[0]].status) ==> done && jobs == old(jobs)
    {
      done := Completed(jobs[list[0]].status);
      if !done {
        assert JobOk(jobs[list[0]]);
        assert jobs[list[0]].cancelled;
        ghost var j0 := jobs;
        done := Wait(list[0]);
        WoundUpWaited(j0, jobs, list, all, who, split, bad);
      }
    }

    /** Second half: finalize it. */
    method FinishFirst(ghost all: seq<JobId>, ghost bad: bool)
      requires Winding(jobs, list, all, who, split, bad) && list != [] && Completed(jobs[list[0]].status)
      modifies this`jobs, this`list
      ensures Winding(jobs, list, all, who, split, bad) && jobs.Keys == old(jobs).Keys && list == old(list)[1..]
      ensures AllDone(old(jobs), old(list)) ==> AllDone(jobs, list)
    {
      CanFinalize(jobs, list, who, split);
      FinalizeFirst();
      FinishedNext(old(jobs), jobs, old(list), all, who, split, bad);
    }

    /** job_completed_txn_abort_locked.  When it is over, every job but `id` has
        been aborted; job `id` has been, too, unless there was nothing wrong with
        it. */
    method TxnAbort(id: JobId) returns (finished: bool)
      requires Core() && !aborting && PreAbort(jobs, list, id, split)
      modifies this`jobs, this`list, this`aborting, this`who
      ensures Valid() && aborting && who == id && jobs.Keys == old(jobs).Keys
      ensures finished ==> list == [] && WoundUp(jobs, [], old(list), id, Bad(old(jobs)[id]))
      ensures AllDone(old(jobs), old(list)) ==> finished
    {
      aborting, who := true, id;
      CancelOthers(id);
      StartsWindUp(old(jobs), jobs, list, id, split);
      finished := WindUpAll(list, Bad(jobs[id]));
    }

    /** The second loop as a whole. */
    method WindUpAll(ghost all: seq<JobId>, ghost bad: bool) returns (finished: bool)
      requires aborting && Winding(jobs, list, all, who, split, bad)
      modifies this`jobs, this`list
      ensures Valid() && jobs.Keys == old(jobs).Keys && WoundUp(jobs, list, all, who, bad)
      ensures finished ==> list == []
      ensures AllDone(old(jobs), old(list)) ==> finished
    {
      while list != []
        invariant Winding(jobs, list, all, who, split, bad) && jobs.Keys == old(jobs).Keys
        invariant AllDone(old(jobs), old(list)) ==> AllDone(jobs, list)
        decreases |list|
      {
        var done := AwaitFirst(all, bad);
        if !done {
          return false;
        }
        FinishFirst(all, bad);
      }
      return true;
    }

    /** job_prepare_locked for one job of the list. */
    method PrepareOne(i: nat, ret: int)
      requires Core() && AllPending(jobs, list) && Untouched(jobs) && i < |list| && Unprepared(jobs, list, i)
      modifies this`jobs
      ensures Core() && jobs.Keys == old(jobs).Keys && Untouched(jobs) && Unprepared(jobs, list, i + 1)
      ensures if ret == 0 then AllPending(jobs, list) else FailedOne(jobs, list, list[i])
    {
      Interleave(Opt.None);
      PendingFixed(old(jobs), jobs, list);
      var j := PrepareJob(jobs[list[i]], ret);
      PreparedAs(old(jobs), jobs, list, i, j);
      jobs := jobs[list[i] := j];
    }

    /** job_txn_apply_locked with job_prepare_locked: up to the first failure. */
    method PrepareAll(prepare: JobId -> int) returns (failed: Opt.Option<JobId>)
      requires Core() && AllPending(jobs, list) && Untouched(jobs) && Unprepared(jobs, list, 0)
      modifies this`jobs
      ensures Core() && jobs.Keys == old(jobs).Keys && Untouched(jobs)
      ensures failed == FirstFailing(list, prepare)
      ensures if failed.Some? then FailedOne(jobs, list, failed.value) else AllPending(jobs, list)
    {
      var i := 0;
      while i < |list|
        invariant 0 <= i <= |list| && Core() && jobs.Keys == old(jobs).Keys && Untouched(jobs)
        invariant AllPending(jobs, list) && Unprepared(jobs, list, i)
        invariant FirstFailing(list, prepare) == FirstFailing(list[i..], prepare)
      {
        var ret := prepare(list[i]);
        PrepareOne(i, ret);
        if ret != 0 {
          return Opt.Some(list[i]);
        }
        i := i + 1;
      }
      return Opt.None;
    }

    /** job_txn_apply_locked with job_finalize_single_locked. */
    method CommitAll()
      requires Core() && AllPending(jobs, list) && NoneAborted(jobs) && !aborting && !split
      modifies this`jobs, this`list
      ensures Valid() && jobs.Keys == old(jobs).Keys && list == [] && !split
      ensures forall k <- old(list) :: k in jobs && Committed(jobs[k])
    {
      ghost var all := list;
      while list != []
        invariant Core() && jobs.Keys == old(jobs).Keys && NoneAborted(jobs) && AllPending(jobs, list)
        invariant forall k <- all :: k in jobs && (k in list || Committed(jobs[k]))
        decreases |list|
      {
        ghost var j0, l0 := jobs, list;
        FinalizeFirst();
        CommittedFirst(j0, jobs, l0, all);
      }
    }

    /** All jobs have completed, so there is nothing to wait for. */
    method AbortPrepared(id: JobId, failed: JobId)
      requires Core() && !aborting && Untouched(jobs) && id in list && FailedOne(jobs, list, failed)
      modifies this
      ensures Valid() && jobs.Keys == old(jobs).Keys && (split <==> failed != id)
      ensures list == [] && FinalizedAs(jobs, old(list), id, Opt.Some(failed))
    {
      FailedAborts(jobs, list, failed, id);
      split := failed != id;
      var finished := TxnAbort(id);
    }

    /** job_do_finalize_locked.  A prepare that fails aborts all the jobs, except
        that job `id` is committed all the same if the failure was another
        job's. */
    method DoFinalize(id: JobId, prepare: JobId -> int)
      requires Core() && !aborting && !split && id in list && AllPending(jobs, list) && Untouched(jobs) && Unprepared(jobs, list, 0)
      modifies this
      ensures Valid() && jobs.Keys == old(jobs).Keys
      ensures list == [] && FinalizedAs(jobs, old(list), id, FirstFailing(old(list), prepare))
      ensures split <==> FailsElsewhere(old(list), id, prepare)
    {
      var failed := PrepareAll(prepare);
      if failed.Some? {
        AbortPrepared(id, failed.value);
      } else {
        CommitAll();
      }
    }

    /** job_transition_to_pending_locked for every job of the list. */
    method AllToPending()
      requires Core() && PendingTo(jobs, list, 0) && Untouched(jobs)
      modifies this`jobs
      ensures Core() && jobs.Keys == old(jobs).Keys && Untouched(jobs)
      ensures AllPending(jobs, list) && Unprepared(jobs, list, 0)
      ensures forall k <- jobs :: jobs[k].options == old(jobs)[k].options
    {
      var i := 0;
      while i < |list|
        invariant 0 <= i <= |list| && BecomingPending(jobs, list, i) && jobs.Keys == old(jobs).Keys
        invariant forall k <- jobs :: jobs[k].options == old(jobs)[k].options
      {
        PendingNext(jobs, list, i);
        jobs := jobs[list[i] := SetStatus(jobs[list[i]], Pending)];
        i := i + 1;
      }
    }

    /** job_completed_txn_success_locked: the last job to end well makes them all
        pending, and finalizes them unless somebody wants to do that by hand. */
    method TxnSuccess(id: JobId, prepare: JobId -> int)
      requires Valid() && !aborting && id in list && jobs[id].status == Waiting
      modifies this
      ensures Valid() && Idle() && jobs.Keys == old(jobs).Keys
      ensures split <==> !RunningIn(old(jobs), old(list)) && SplitsWhenDone(old(jobs), old(list), id, prepare)
      ensures if RunningIn(old(jobs), old(list)) then jobs == old(jobs) && list == old(list)
              else DoneAs(old(jobs), old(list), jobs, list, id, prepare)
    {
      if !RunningIn(jobs, list) {
        AllEnded(id, prepare);
      }
    }

    /** The same when no job is running any more. */
    method AllEnded(id: JobId, prepare: JobId -> int)
      requires Valid() && !aborting && id in list && jobs[id].status == Waiting && !RunningIn(jobs, list)
      modifies this
      ensures Valid() && Idle() && jobs.Keys == old(jobs).Keys
      ensures split <==> SplitsWhenDone(old(jobs), old(list), id, prepare)
      ensures DoneAs(old(jobs), old(list), jobs, list, id, prepare)
    {
      BecomePending(id);
      FinalizeIfAuto(id, prepare);
    }

    method BecomePending(id: JobId)
      requires Valid() && !aborting && id in list && jobs[id].status == Waiting && !RunningIn(jobs, list)
      modifies this`jobs
      ensures Core() && jobs.Keys == old(jobs).Keys && Untouched(jobs)
      ensures AllPending(jobs, list) && Unprepared(jobs, list, 0) && ManualIn(jobs, list) == ManualIn(old(jobs), list)
    {
      // the source asserts that the other jobs have ended well
      assert forall k <- list :: jobs[k].ret == 0;
      AllWaiting(jobs, list, id);
      AllToPending();
      SameOptions(old(jobs), jobs, list);
    }

    /** Pending jobs are finalized at once unless one of them waits for its
        user. */
    method FinalizeIfAuto(id: JobId, prepare: JobId -> int)
      requires Core() && !aborting && !split && id in list && AllPending(jobs, list) && Untouched(jobs) && Unprepared(jobs, list, 0)
      modifies this
      ensures Valid() && Idle() && jobs.Keys == old(jobs).Keys
      ensures split <==> SplitsWhenDone(old(jobs), old(list), id, prepare)
      ensures DoneAs(old(jobs), old(list), jobs, list, id, prepare)
    {
      if ManualIn(jobs, list) {
        PendingRests(jobs, list);
      } else {
        DoFinalize(id, prepare);
      }
    }

    /** job_completed_locked for a job that has failed or was cancelled. */
    method CompleteBadly(id: JobId) returns (finished: bool)
      requires Core() && !aborting && !split && NoneCommitted(jobs)
      requires id in list && CanComplete(jobs[id]) && Bad(jobs[id])
      modifies this`jobs, this`list, this`aborting, this`who
      ensures Valid() && aborting && jobs.Keys == old(jobs).Keys
      ensures finished ==> list == [] && forall k <- old(list) :: k in jobs && Aborted(jobs[k])
      ensures !RunningIn(old(jobs) - {id}, old(list)) ==> finished
    {
      FailListed(id);
      finished := TxnAbort(id);
    }

    method FailListed(id: JobId)
      requires Core() && NoneCommitted(jobs) && id in list && CanComplete(jobs[id]) && Bad(jobs[id])
      modifies this`jobs
      ensures Core() && PreAbort(jobs, list, id, false) && Bad(jobs[id]) && jobs.Keys == old(jobs).Keys
      ensures !RunningIn(old(jobs) - {id}, list) ==> AllDone(jobs, list)
    {
      var j := FailJob(jobs[id]);
      CompletedBad(jobs, list, id, j);
      OthersDone(jobs, list, id, j);
      jobs := jobs[id := j];
    }

    /** job_completed_locked for a job that has ended well. */
    method CompleteWell(id: JobId, prepare: JobId -> int)
      requires Valid() && !aborting && id in list && jobs[id].co.Returned? && !Bad(jobs[id])
      modifies this
      ensures Valid() && Idle() && jobs.Keys == old(jobs).Keys
      ensures split <==> !RunningIn(old(jobs) - {id}, old(list)) && SplitsWhenDone(old(jobs), old(list), id, prepare)
      ensures if RunningIn(old(jobs) - {id}, old(list))
              then list == old(list) && jobs == old(jobs)[id := jobs[id]] && jobs[id].status == Waiting
              else DoneAs(old(jobs), old(list), jobs, list, id, prepare)
    {
      var j := SucceedJob(jobs[id]);
      CompletedWell(jobs, list, id, j);
      OthersDone(jobs, list, id, j);
      SameOptions(jobs, jobs[id := j], list);
      jobs := jobs[id := j];
      TxnSuccess(id, prepare);
    }

    /** job_completed_locked, for a job whose run is over (job_exit) or that was
        cancelled before it was started.  The transaction ends mixed exactly if
        this is the last job, it has ended well, all are finalized at once, and
        the first prepare to fail is another job's. */
    method JobCompleted(id: JobId, prepare: JobId -> int) returns (finished: bool)
      requires Valid() && !aborting && id in list && CanComplete(jobs[id])
      requires jobs[id].co.NotStarted? ==> jobs[id].forceCancel
      modifies this
      ensures Valid() && jobs.Keys == old(jobs).Keys
      ensures Bad(old(jobs)[id]) && finished ==> list == [] && forall k <- old(list) :: k in jobs && Aborted(jobs[k])
      ensures !Bad(old(jobs)[id]) || !RunningIn(old(jobs) - {id}, old(list)) ==> finished && Idle()
      ensures split <==> !Bad(old(jobs)[id]) && !RunningIn(old(jobs) - {id}, old(list)) &&
                         SplitsWhenDone(old(jobs), old(list), id, prepare)
      ensures !Bad(old(jobs)[id]) ==>
                if RunningIn(old(jobs) - {id}, old(list))
                then list == old(list) && jobs == old(jobs)[id := jobs[id]] && jobs[id].status == Waiting
                else DoneAs(old(jobs), old(list), jobs, list, id, prepare)
    {
      if Bad(jobs[id]) {
        finished := CompleteBadly(id);
      } else {
        CompleteWell(id, prepare);
        finished := true;
      }
    }

    // ---- The commands ----------------------------------------------------

    constructor ()
      ensures Valid() && !aborting && jobs == map[] && list == []
    {
      jobs, list, aborting, who, split := map[], [], false, 0, false;
    }

    /** job_create, before the transaction is finalized. */
    method Create(id: JobId, options: Options)
      requires Valid() && !aborting && id !in jobs && Untouched(jobs)
      requires forall k <- list :: jobs[k].status != Pending
      modifies this`jobs, this`list
      ensures Valid() && jobs == old(jobs)[id := NewJob(options)] && list == [id] + old(list)
    {
      CreatedTxn(jobs, list, id, options);
      jobs := jobs[id := NewJob(options)];
      list := [id] + list;
    }

    /** job_start. */
    method Start(id: JobId)
      requires Valid() && !aborting && id in list && jobs[id].status == Created
      modifies this`jobs
      ensures Valid() && jobs == old(jobs)[id := Started(old(jobs)[id])]
    {
      StartedOk(jobs[id]);
      StartedRests(jobs, list, id);
      jobs := jobs[id := Started(jobs[id])];
    }

    /** What a command changes when it is over: it was one job's own affair. */
    method Change(id: JobId, j: Job)
      requires Valid() && id in jobs && JobOk(j) && Steady(jobs[id], j) && j.forceCancel == jobs[id].forceCancel
      modifies this`jobs
      ensures Valid() && jobs == old(jobs)[id := j]
    {
      TouchOne(jobs, id, j);
      QuietTxn(jobs, jobs[id := j], list, aborting, who, split);
      jobs := jobs[id := j];
    }

    /** A step of a coroutine. */
    method CoroutineStep(id: JobId, step: CoStep)
      requires Valid() && id in jobs && CanStep(jobs[id], step)
      modifies this`jobs
      ensures Valid() && jobs == old(jobs)[id := CoApply(old(jobs)[id], step)]
    {
      CoKeeps(jobs[id], step);
      Change(id, CoApply(jobs[id], step));
    }

    /** job_enter_cond_locked in a command. */
    method Kick(id: JobId)
      requires Valid() && id in jobs
      modifies this`jobs
      ensures Valid() && EnvAll(old(jobs), jobs)
    {
      EnterCond(id);
      QuietTxn(old(jobs), jobs, list, aborting, who, split);
    }

    /** job_pause_locked and job_resume_locked: a new pause count, and the job may
        have to be kicked. */
    method SetPause(id: JobId, p: Pause, kick: bool)
      requires Valid() && id in jobs && PauseOk(p, jobs[id].co.NotStarted?, jobs[id].options) && p.reports == jobs[id].pause.reports
      modifies this`jobs
      ensures Valid() && jobs.Keys == old(jobs).Keys
      ensures jobs[id].pause.drained == p.drained && (p.user ==> jobs[id].pause.user)
    {
      PausedOk(jobs[id], p);
      Change(id, jobs[id].(pause := p));
      if kick {
        Kick(id);
      }
    }

    /** child_job_drained_begin. */
    method DrainedBegin(id: JobId)
      requires Valid() && id in jobs
      modifies this`jobs
      ensures Valid() && jobs.Keys == old(jobs).Keys && jobs[id].pause.drained == old(jobs)[id].pause.drained + 1
    {
      var j := jobs[id];
      assert JobOk(jobs[id]);
      PauseKept(j.pause, j.co.NotStarted?, j.options);
      SetPause(id, DrainBegin(j.pause), !j.paused);
    }

    /** child_job_drained_end; job_resume_locked asserts that the count is
        positive. */
    method DrainedEnd(id: JobId)
      requires Valid() && id in jobs && jobs[id].pause.drained > 0
      modifies this`jobs
      ensures Valid() && jobs.Keys == old(jobs).Keys && jobs[id].pause.drained == old(jobs)[id].pause.drained - 1
    {
      var j := jobs[id];
      assert JobOk(jobs[id]);
      PauseKept(j.pause, j.co.NotStarted?, j.options);
      assert j.pause.count > 0;
      SetPause(id, DrainEnd(j.pause), j.pause.count == 1);
    }

    /** job_user_pause_locked. */
    method UserPauseCommand(id: JobId) returns (ok: bool)
      requires Valid() && id in jobs
      modifies this`jobs
      ensures Valid() && jobs.Keys == old(jobs).Keys
      ensures ok <==> Accepts(VerbPause, old(jobs)[id].status) && !old(jobs)[id].pause.user
      ensures if ok then jobs[id].pause.user else jobs == old(jobs)
    {
      var j := jobs[id];
      ok := Accepts(VerbPause, j.status) && !j.pause.user;
      if ok {
        assert JobOk(jobs[id]);
        PauseKept(j.pause, j.co.NotStarted?, j.options);
        SetPause(id, UserPause(j.pause), !j.paused);
      }
    }

    /** job_user_resume_locked.  The user's pause ends; the job can only be found
        paused like that again because it has stopped on another error. */
    method UserResumeCommand(id: JobId) returns (ok: bool)
      requires Valid() && id in jobs
      modifies this`jobs
      ensures Valid() && jobs.Keys == old(jobs).Keys
      ensures ok <==> Accepts(VerbResume, old(jobs)[id].status) && old(jobs)[id].pause.user
      ensures ok ==> jobs[id].pause.drained == old(jobs)[id].pause.drained && (jobs[id].pause.user ==> jobs[id].pause.ioError)
      ensures ok && old(jobs)[id].pause.count > 1 ==> !jobs[id].pause.user
      ensures !ok ==> jobs == old(jobs)
    {
      assert JobOk(jobs[id]);
      PauseKept(jobs[id].pause, jobs[id].co.NotStarted?, jobs[id].options);
      ok := jobs[id].pause.user && jobs[id].pause.count > 0 && Accepts(VerbResume, jobs[id].status);
      if ok {
        EndPauseCommand(id);
        KickIfResumed(id);
      }
    }

    method EndPauseCommand(id: JobId)
      requires Valid() && id in jobs && jobs[id].pause.user
      modifies this`jobs
      ensures Valid() && jobs.Keys == old(jobs).Keys && !jobs[id].pause.user
      ensures jobs[id].pause.drained == old(jobs)[id].pause.drained && jobs[id].pause.count == old(jobs)[id].pause.count - 1
    {
      EndUserPause(id);
      TouchesQuiet(old(jobs), jobs, list, aborting, who, split, id);
    }

    /** The end of job_resume_locked: a job that nobody pauses any more runs. */
    method KickIfResumed(id: JobId)
      requires Valid() && id in jobs
      modifies this`jobs
      ensures Valid() && jobs.Keys == old(jobs).Keys && jobs[id].pause.drained == old(jobs)[id].pause.drained
      ensures !old(jobs)[id].pause.user ==> !jobs[id].pause.user || (jobs[id].pause.ioError && old(jobs)[id].pause.count == 0)
    {
      if jobs[id].pause.count == 0 {
        Kick(id);
      }
    }

    /** block_job_iostatus_reset_locked, as called for every job by the command
        cont.  It says when its assertion fails, which cannot happen to a job that
        stays in the main loop. */
    method ResetForCont(id: JobId) returns (failed: bool)
      requires Valid() && id in jobs
      modifies this`jobs
      ensures failed <==> old(jobs)[id].pause.ioError && !old(jobs)[id].pause.user
      ensures old(jobs)[id].options.mainOnly ==> !failed
      ensures Valid() && jobs.Keys == old(jobs).Keys && (if failed then jobs == old(jobs) else !jobs[id].pause.ioError)
    {
      assert JobOk(jobs[id]);
      PauseKept(jobs[id].pause, jobs[id].co.NotStarted?, jobs[id].options);
      failed := !ResetAsserts(jobs[id].pause);
      if !failed && jobs[id].pause.ioError {
        ResetOk(jobs[id]);
        Change(id, jobs[id].(pause := ResetIoStatus(jobs[id].pause)));
      }
    }

    /** job_complete_locked; `hasComplete` says whether the driver has such a
        callback.  It may enter the job. */
    method CompleteCommand(id: JobId, hasComplete: bool) returns (ok: bool)
      requires Valid() && id in jobs
      modifies this`jobs
      ensures Valid() && EnvAll(old(jobs), jobs)
      ensures ok <==> Accepts(VerbComplete, old(jobs)[id].status) && !old(jobs)[id].cancelled && hasComplete
      ensures !ok ==> jobs == old(jobs)
    {
      ok := Accepts(VerbComplete, jobs[id].status) && !jobs[id].cancelled && hasComplete;
      if ok {
        Interleave(Opt.Some(id));
        QuietTxn(old(jobs), jobs, list, aborting, who, split);
      } else {
        EnvSelf(jobs);
      }
    }

    /** job_finalize_locked. */
    method FinalizeCommand(id: JobId, prepare: JobId -> int) returns (ok: bool)
      requires Valid() && Idle() && id in jobs
      modifies this
      ensures Valid() && jobs.Keys == old(jobs).Keys
      ensures ok <==> Accepts(VerbFinalize, old(jobs)[id].status)
      ensures if ok then list == [] && FinalizedAs(jobs, old(list), id, FirstFailing(old(list), prepare))
              else jobs == old(jobs) && list == old(list)
      ensures split <==> old(split) || (ok && FailsElsewhere(old(list), id, prepare))
    {
      ok := Accepts(VerbFinalize, jobs[id].status);
      if ok {
        AllArePending(jobs, list, id);
        RestUnprepared(jobs, list);
        DoFinalize(id, prepare);
      }
    }

    /** job_dismiss_locked. */
    method DismissCommand(id: JobId) returns (ok: bool)
      requires Valid() && id in jobs
      modifies this`jobs
      ensures Valid() && (ok <==> old(jobs)[id].status == Concluded)
      ensures id in jobs && jobs == old(jobs)[id := jobs[id]] && (!ok ==> jobs == old(jobs))
      ensures ok ==> jobs[id].status == Null && jobs[id].calls == old(jobs)[id].calls
    {
      ok := Accepts(VerbDismiss, jobs[id].status);
      if ok {
        DismissConcluded(id);
      }
    }

    method DismissConcluded(id: JobId)
      requires Valid() && id in jobs && jobs[id].status == Concluded
      modifies this`jobs
      ensures Valid() && id in jobs && jobs == old(jobs)[id := jobs[id]]
      ensures jobs[id].status == Null && jobs[id].calls == old(jobs)[id].calls
    {
      var j := DismissJob(jobs[id]);
      DismissedTxn(jobs, list, aborting, who, split, id, j);
      jobs := jobs[id := j];
    }

    /** job_early_fail: the job leaves the transaction without a callback. */
    method EarlyFail(id: JobId)
      requires Valid() && !aborting && id in list && jobs[id].status == Created
      modifies this`jobs, this`list
      ensures Valid() && jobs == old(jobs)[id := Dismissed(old(jobs)[id])] && list == Remove(old(list), id)
    {
      RemoveListed(list, id);
      DismissedOk(jobs[id]);
      LeavesEarly(jobs, list, id);
      list := Remove(list, id);
      jobs := jobs[id := Dismissed(jobs[id])];
    }

    /** job_cancel_locked. */
    method Cancel(id: JobId, force: bool) returns (finished: bool)
      requires Valid() && Idle() && id in jobs && jobs[id].status != Null
      modifies this
      ensures Valid() && jobs.Keys == old(jobs).Keys
      ensures split ==> old(split)
      ensures old(jobs)[id].status == Concluded ==> jobs[id].status == Null
      ensures id in old(list) && !aborting ==> (jobs[id].cancelled || jobs[id].deferred) && (force ==> jobs[id].forceCancel)
      ensures force && finished && id in old(list) && (old(jobs)[id].deferred || old(jobs)[id].co.NotStarted?) ==>
                list == [] && forall k <- old(list) :: k in jobs && Aborted(jobs[k])
    {
      if jobs[id].status == Concluded {
        var ok := DismissCommand(id);
        return true;
      }
      finished := CancelListed(id, force);
    }

    /** job_user_cancel_locked. */
    method UserCancelCommand(id: JobId, force: bool) returns (ok: bool, finished: bool)
      requires Valid() && Idle() && id in jobs
      modifies this
      ensures Valid() && jobs.Keys == old(jobs).Keys && (split ==> old(split))
      ensures ok <==> Accepts(VerbCancel, old(jobs)[id].status)
      ensures !ok ==> jobs == old(jobs) && list == old(list)
    {
      ok, finished := Accepts(VerbCancel, jobs[id].status), true;
      if ok {
        finished := Cancel(id, force);
      }
    }

    /** job_cancel_locked for a job that is not concluded. */
    method CancelListed(id: JobId, force: bool) returns (finished: bool)
      requires Valid() && !aborting && id in list
      modifies this
      ensures Valid() && jobs.Keys == old(jobs).Keys && !split
      ensures !aborting ==> (jobs[id].cancelled || jobs[id].deferred) && (force ==> jobs[id].forceCancel)
      ensures force && finished && (old(jobs)[id].deferred || old(jobs)[id].co.NotStarted?) ==>
                list == [] && forall k <- old(list) :: k in jobs && Aborted(jobs[k])
    {
      CancelAsync(id, force);
      CancelNotCommitted(old(jobs), jobs, list, id);
      if jobs[id].co.NotStarted? || (jobs[id].deferred && jobs[id].forceCancel) {
        finished := AbortCancelled(id);
      } else {
        CancelRests(old(jobs), jobs, list, id);
        LetRun(id);
        finished := true;
      }
    }

    /** A running job is entered, so that it notices; one that is already done
        ignores a soft request. */
    method LetRun(id: JobId)
      requires Valid() && id in jobs
      modifies this`jobs
      ensures Valid() && jobs.Keys == old(jobs).Keys
      ensures jobs[id].cancelled == old(jobs)[id].cancelled && jobs[id].forceCancel == old(jobs)[id].forceCancel
      ensures old(jobs)[id].deferred ==> jobs == old(jobs)
    {
      if !jobs[id].deferred {
        Kick(id);
      }
    }

    /** A job that never ran completes at once; one that is already done, but
        cancelled by force, takes the transaction with it. */
    method AbortCancelled(id: JobId) returns (finished: bool)
      requires Core() && !aborting && !split && NoneCommitted(jobs) && id in list && jobs[id].forceCancel
      requires jobs[id].co.NotStarted? ==> jobs[id].status == Created
      modifies this`jobs, this`list, this`aborting, this`who
      ensures Valid() && aborting && jobs.Keys == old(jobs).Keys
      ensures finished ==> list == [] && forall k <- old(list) :: k in jobs && Aborted(jobs[k])
    {
      if jobs[id].co.NotStarted? {
        finished := CompleteBadly(id);
      } else {
        finished := TxnAbort(id);
      }
    }

    /** In every state that the methods lead to, each job has come to its status
        along edges of JobSTT, and no pause can be ended more often than it was
        counted.  A job that is over has had commit or abort, but not both,
        unless it left before it was started. */
    lemma EveryJobOk(id: JobId)
      requires Valid() && id in jobs
      ensures IsPath(jobs[id].trail) && Last(jobs[id].trail) == jobs[id].status
      ensures jobs[id].pause.count >= B(jobs[id].co.NotStarted?) + B(jobs[id].pause.user) + jobs[id].pause.drained
      ensures CountsExactly(jobs[id].options) ==>
                jobs[id].pause.count == B(jobs[id].co.NotStarted?) + B(jobs[id].pause.user) + jobs[id].pause.drained
      ensures jobs[id].options.mainOnly ==> ResetAsserts(jobs[id].pause)
      ensures id in list ==> Open(jobs[id].calls)
      ensures jobs[id].status == Concluded ==> Committed(jobs[id]) != Aborted(jobs[id])
      ensures jobs[id].status == Null ==>
                if LeftEarly(jobs[id].trail) then jobs[id].calls == None else Committed(jobs[id]) != Aborted(jobs[id])
    {
      assert JobOk(jobs[id]);
    }

    /** Jobs in a transaction are committed or aborted together, unless the
        prepare of another job than the finalizing one has failed. */
    lemma AllTogether()
      requires Valid() && !split
      ensures AllOrNothing(jobs)
    {
    }
  }

  /** The prepare that fails is not that of the job which finalizes the
      transaction. */
  predicate FailsElsewhere(list: seq<JobId>, id: JobId, prepare: JobId -> int) {
    FirstFailing(list, prepare).Some? && FirstFailing(list, prepare) != Opt.Some(id)
  }

  function Members(jobs: map<JobId, Job>, all: seq<JobId>): map<JobId, Job> {
    map k | k in jobs && k in all :: jobs[k]
  }

  /** And then it does go wrong: one job is committed while another is aborted. */
  lemma NotTogether(jobs: map<JobId, Job>, all: seq<JobId>, id: JobId, prepare: JobId -> int)
    requires id in all && FinalizedAs(jobs, all, id, FirstFailing(all, prepare))
    ensures FailsElsewhere(all, id, prepare) <==> !AllOrNothing(Members(jobs, all))
  {
    var mine := Members(jobs, all);
    if FailsElsewhere(all, id, prepare) {
      var k := FirstFailing(all, prepare).value;
      assert id in mine && k in mine && Committed(mine[id]) && Aborted(mine[k]);
    } else if FirstFailing(all, prepare).None? {
      assert forall k <- mine :: Committed(mine[k]);
    } else {
      assert forall k <- mine :: Aborted(mine[k]);
    }
  }

  lemma CompletedBad(jobs: map<JobId, Job>, list: seq<JobId>, id: JobId, j: Job)
    requires AllOk(jobs) && Listed(jobs, list) && NoneCommitted(jobs) && id in list
    requires JobOk(j) && j.status == Aborting && Bad(j)
    ensures AllOk(jobs[id := j]) && Listed(jobs[id := j], list) && PreAbort(jobs[id := j], list, id, false)
  {
  }

  /** Job `id` has completed as `j`: who runs now is who else was running. */
  lemma OthersDone(jobs: map<JobId, Job>, list: seq<JobId>, id: JobId, j: Job)
    requires Listed(jobs, list) && id in list && Completed(j.status)
    ensures RunningIn(jobs[id := j], list) == RunningIn(jobs - {id}, list)
    ensures AllDone(jobs[id := j], list) == !RunningIn(jobs - {id}, list)
  {
  }

  lemma CompletedWell(jobs: map<JobId, Job>, list: seq<JobId>, id: JobId, j: Job)
    requires AllOk(jobs) && Listed(jobs, list) && TxnOk(jobs, list, false, 0, false) && id in list
    requires !Completed(jobs[id].status) && JobOk(j) && j.status == Waiting && !Bad(j) && j.calls == jobs[id].calls
    ensures AllOk(jobs[id := j]) && Listed(jobs[id := j], list) && TxnOk(jobs[id := j], list, false, 0, false)
  {
  }

  lemma DismissedTxn(jobs: map<JobId, Job>, list: seq<JobId>, aborting: bool, who: JobId, split: bool, id: JobId,
                     j: Job)
    requires AllOk(jobs) && Listed(jobs, list) && TxnOk(jobs, list, aborting, who, split)
    requires id in jobs && !Live(jobs[id]) && JobOk(j) && !Live(j) && j.calls == jobs[id].calls
    ensures AllOk(jobs[id := j]) && Listed(jobs[id := j], list) && TxnOk(jobs[id := j], list, aborting, who, split)
  {
    assert id !in list;
  }

  lemma FirstInList(list: seq<JobId>, id: JobId)
    requires NoDup(list) && id !in list
    ensures NoDup([id] + list) && forall k :: k in [id] + list <==> k == id || k in list
  {
  }

  lemma CreatedTxn(jobs: map<JobId, Job>, list: seq<JobId>, id: JobId, options: Options)
    requires AllOk(jobs) && Listed(jobs, list) && RestOk(jobs, list) && Untouched(jobs) && id !in jobs
    requires forall k <- list :: jobs[k].status != Pending
    ensures var b := jobs[id := NewJob(options)];
            AllOk(b) && Listed(b, [id] + list) && RestOk(b, [id] + list) && Untouched(b)
  {
    FirstInList(list, id);
    CreatedFirst(jobs, list, [id] + list, id, NewJob(options));
  }

  lemma CreatedFirst(jobs: map<JobId, Job>, list: seq<JobId>, list': seq<JobId>, id: JobId, j: Job)
    requires AllOk(jobs) && Listed(jobs, list) && RestOk(jobs, list) && Untouched(jobs) && id !in jobs
    requires NoDup(list') && forall k :: k in list' <==> k == id || k in list
    requires JobOk(j) && j.status == Created && j.calls == None && forall k <- list :: jobs[k].status != Pending
    ensures AllOk(jobs[id := j]) && Listed(jobs[id := j], list') && RestOk(jobs[id := j], list') && Untouched(jobs[id := j])
  {
  }

  lemma StartedRests(jobs: map<JobId, Job>, list: seq<JobId>, id: JobId)
    requires AllOk(jobs) && Listed(jobs, list) && TxnOk(jobs, list, false, 0, false) && id in list
    requires jobs[id].status == Created
    ensures Listed(jobs[id := Started(jobs[id])], list) && TxnOk(jobs[id := Started(jobs[id])], list, false, 0, false)
  {
  }

  lemma AllArePending(jobs: map<JobId, Job>, list: seq<JobId>, id: JobId)
    requires RestOk(jobs, list) && id in list && jobs[id].status == Pending
    ensures AllPending(jobs, list)
  {
  }

  lemma ExitedDeferred(j: Job)
    requires JobOk(j) && Completed(j.status)
    ensures j.co.NotStarted? || j.deferred
  {
  }

  /** A cancel leaves the transaction alone as long as no completed job is
      cancelled by force. */
  lemma CancelRests(a: map<JobId, Job>, b: map<JobId, Job>, list: seq<JobId>, id: JobId)
    requires AllOk(a) && AllOk(b) && Touches(a, b, id) && Listed(a, list) && TxnOk(a, list, false, 0, false)
    requires id in list && !b[id].co.NotStarted? && !(b[id].deferred && b[id].forceCancel)
    ensures TxnOk(b, list, false, 0, false)
  {
    if Completed(b[id].status) {
      ExitedDeferred(b[id]);
    }
    SteadyKeepsLive(a[id], b[id]);
    assert Completed(a[id].status) ==> !a[id].forceCancel && !b[id].forceCancel;
    QuietTxn(a, b, list, false, 0, false);
  }

  lemma CancelNotCommitted(a: map<JobId, Job>, b: map<JobId, Job>, list: seq<JobId>, id: JobId)
    requires Touches(a, b, id) && JobOk(a[id]) && TxnOk(a, list, false, 0, false) && id in list
    ensures NoneCommitted(b) && a[id].co.NotStarted? == b[id].co.NotStarted?
    ensures a[id].co.NotStarted? ==> b[id].status == Created
    ensures a[id].deferred ==> b[id].deferred
  {
    StillUnstarted(a[id], b[id]);
    assert forall k <- a :: b[k].calls == a[k].calls;
  }

  lemma StillUnstarted(j: Job, j': Job)
    requires JobOk(j) && Steady(j, j')
    ensures j.co.NotStarted? == j'.co.NotStarted? && (j.deferred ==> j'.deferred)
    ensures j.co.NotStarted? ==> j'.status == j.status && (j.status == Created || Completed(j.status))
  {
  }

  function Remove(list: seq<JobId>, id: JobId): seq<JobId> {
    if list == [] then [] else if list[0] == id then list[1..] else [list[0]] + Remove(list[1..], id)
  }

  lemma {:induction false} RemoveListed(list: seq<JobId>, id: JobId)
    requires NoDup(list)
    ensures NoDup(Remove(list, id))
    ensures forall k :: k in Remove(list, id) <==> k in list && k != id
  {
    if list != [] {
      RestOfList(list);
      if list[0] != id {
        RemoveListed(list[1..], id);
        var rest := Remove(list[1..], id);
        assert list[0] !in rest;
        assert forall i :: 0 <= i < |rest| ==> rest[i] in rest;
      }
    }
  }

  lemma LeavesEarly(jobs: map<JobId, Job>, list: seq<JobId>, id: JobId)
    requires AllOk(jobs) && Listed(jobs, list) && TxnOk(jobs, list, false, 0, false) && id in list
    requires jobs[id].status == Created && NoDup(Remove(list, id))
    requires forall k :: k in Remove(list, id) <==> k in list && k != id
    ensures var b := jobs[id := Dismissed(jobs[id])];
            Listed(b, Remove(list, id)) && TxnOk(b, Remove(list, id), false, 0, false)
  {
  }

  /** Some job of the list has not ended yet. */
  predicate RunningIn(jobs: map<JobId, Job>, list: seq<JobId>) {
    exists k <- list :: k in jobs && !Completed(jobs[k].status)
  }

  /** Some job of the list is to be finalized by hand. */
  predicate ManualIn(jobs: map<JobId, Job>, list: seq<JobId>) {
    exists k <- list :: k in jobs && !jobs[k].options.autoFinalize
  }

  /** A transaction whose last job has just ended well is finalized at once, and
      ends mixed. */
  predicate SplitsWhenDone(jobs: map<JobId, Job>, list: seq<JobId>, id: JobId, prepare: JobId -> int) {
    !ManualIn(jobs, list) && FailsElsewhere(list, id, prepare)
  }

  /** What has become of it: pending if somebody wants to finalize it by hand,
      otherwise finalized. */
  predicate DoneAs(was: map<JobId, Job>, all: seq<JobId>, jobs: map<JobId, Job>, list: seq<JobId>, id: JobId,
                   prepare: JobId -> int)
  {
    if ManualIn(was, all) then list == all && AllPending(jobs, list)
    else list == [] && FinalizedAs(jobs, all, id, FirstFailing(all, prepare))
  }

  lemma SameOptions(a: map<JobId, Job>, b: map<JobId, Job>, list: seq<JobId>)
    requires a.Keys == b.Keys && forall k <- a :: b[k].options == a[k].options
    ensures ManualIn(a, list) == ManualIn(b, list)
  {
  }

  /** The first `i` jobs are pending, the others are waiting. */
  predicate PendingTo(jobs: map<JobId, Job>, list: seq<JobId>, i: nat) {
    forall m :: 0 <= m < |list| ==>
      && list[m] in jobs && !Bad(jobs[list[m]]) && jobs[list[m]].calls == None
      && jobs[list[m]].status == if m < i then Pending else Waiting
  }

  predicate BecomingPending(jobs: map<JobId, Job>, list: seq<JobId>, i: nat) {
    AllOk(jobs) && Listed(jobs, list) && Untouched(jobs) && PendingTo(jobs, list, i)
  }

  lemma AllWaiting(jobs: map<JobId, Job>, list: seq<JobId>, id: JobId)
    requires RestOk(jobs, list) && id in list && jobs[id].status == Waiting
    requires forall k <- list :: Completed(jobs[k].status)
    ensures PendingTo(jobs, list, 0)
  {
  }

  lemma PendingNext(jobs: map<JobId, Job>, list: seq<JobId>, i: nat)
    requires i < |list| && BecomingPending(jobs, list, i)
    ensures jobs[list[i]].status == Waiting
    ensures BecomingPending(jobs[list[i] := SetStatus(jobs[list[i]], Pending)], list, i + 1)
  {
    PendingOk(jobs[list[i]]);
  }

  lemma PendingRests(jobs: map<JobId, Job>, list: seq<JobId>)
    requires AllPending(jobs, list) && Unprepared(jobs, list, 0)
    ensures RestOk(jobs, list)
  {
  }

  lemma UnpreparedKept(a: map<JobId, Job>, b: map<JobId, Job>, list: seq<JobId>, i: nat, j: Job)
    requires NoDup(list) && i < |list| && Unprepared(a, list, i) && a.Keys == b.Keys && forall k <- list :: k in a && b[k] == a[k]
    ensures Unprepared(b[list[i] := j], list, i + 1)
  {
  }

  lemma PreparedAs(a: map<JobId, Job>, b: map<JobId, Job>, list: seq<JobId>, i: nat, j: Job)
    requires AllOk(b) && Listed(b, list) && Untouched(b) && a.Keys == b.Keys
    requires AllPending(a, list) && i < |list| && Unprepared(a, list, i) && forall k <- list :: k in a && b[k] == a[k]
    requires JobOk(j) && !j.forceCancel && j.calls == After(None, Prepare) && j.status == if j.ret == 0 then Pending else Aborting
    ensures var c := b[list[i] := j];
            && AllOk(c) && Listed(c, list) && c.Keys == a.Keys && Untouched(c) && Unprepared(c, list, i + 1)
            && if j.ret == 0 then AllPending(c, list) else FailedOne(c, list, list[i])
  {
    PreparedOne(b, list, list[i], j);
    UnpreparedKept(a, b, list, i, j);
  }

  lemma RestUnprepared(jobs: map<JobId, Job>, list: seq<JobId>)
    requires RestOk(jobs, list)
    ensures Unprepared(jobs, list, 0)
  {
  }

  lemma FailedAborts(jobs: map<JobId, Job>, list: seq<JobId>, failed: JobId, id: JobId)
    requires FailedOne(jobs, list, failed) && NoneCommitted(jobs) && id in list
    ensures PreAbort(jobs, list, id, failed != id) && Bad(jobs[id]) == (failed == id) && AllDone(jobs, list)
  {
  }

  lemma PendingFixed(a: map<JobId, Job>, b: map<JobId, Job>, list: seq<JobId>)
    requires AllOk(a) && AllOk(b) && EnvAll(a, b) && Listed(a, list) && AllPending(a, list)
    requires Untouched(a)
    ensures Listed(b, list) && (forall k <- list :: b[k] == a[k]) && Untouched(b)
  {
    EnvListed(a, b, list);
    forall k <- list ensures b[k] == a[k] {
      CompletedFixed(a[k], b[k]);
    }
  }

  lemma PreparedOne(jobs: map<JobId, Job>, list: seq<JobId>, k: JobId, j: Job)
    requires AllOk(jobs) && Listed(jobs, list) && AllPending(jobs, list) && Untouched(jobs)
    requires k in list && JobOk(j) && !j.forceCancel && j.calls == After(None, Prepare)
    requires j.status == if j.ret == 0 then Pending else Aborting
    ensures var b := jobs[k := j];
            && AllOk(b) && Listed(b, list) && Untouched(b)
            && if j.ret == 0 then AllPending(b, list) else FailedOne(b, list, k)
  {
  }

  lemma CommittedFirst(a: map<JobId, Job>, b: map<JobId, Job>, list: seq<JobId>, all: seq<JobId>)
    requires AllOk(a) && AllOk(b) && NoDup(list) && FirstDone(a, b, list) && AllPending(a, list) && NoneAborted(a)
    requires forall k <- all :: k in a && (k in list || Committed(a[k]))
    ensures AllPending(b, list[1..]) && NoneAborted(b)
    ensures forall k <- all :: k in b && (k in list[1..] || Committed(b[k]))
  {
    RestOfList(list);
    forall k <- list[1..] ensures b[k] == a[k] {
      CompletedFixed(a[k], b[k]);
    }
  }

  lemma CancelledOne(before: map<JobId, Job>, a: map<JobId, Job>, b: map<JobId, Job>, k: JobId, id: JobId)
    requires SteadyAll(before, a) && Touches(a, b, k) && k != id && id in a && EnvRely(before[id], a[id])
    ensures SteadyAll(before, b) && EnvRely(before[id], b[id])
    ensures forall m <- a :: a[m].forceCancel ==> b[m].forceCancel
  {
    forall m <- a ensures Steady(before[m], b[m]) {
      SteadyTrans(before[m], a[m], b[m]);
    }
    SteadyTrans(before[id], a[id], b[id]);
  }

  lemma StartsWindUp(a: map<JobId, Job>, b: map<JobId, Job>, list: seq<JobId>, id: JobId, split: bool)
    requires AllOk(a) && AllOk(b) && Listed(b, list)
    requires SteadyAll(a, b) && PreAbort(a, list, id, split) && EnvRely(a[id], b[id])
    requires forall k <- list :: k in b && (k != id ==> b[k].forceCancel)
    ensures Winding(b, list, list, id, split, Bad(b[id])) && Bad(b[id]) == Bad(a[id])
    ensures AllDone(a, list) ==> AllDone(b, list)
  {
    DoneStays(a, b, list);
    SteadyKeepsLive(a[id], b[id]);
  }

  lemma WoundUpWaited(a: map<JobId, Job>, b: map<JobId, Job>, list: seq<JobId>, all: seq<JobId>, who: JobId,
                      split: bool, bad: bool)
    requires WaitedAll(a, b) && AbortOk(a, list, who, split) && WoundUp(a, list, all, who, bad)
    ensures WoundUp(b, list, all, who, bad)
  {
    if who in list {
      assert Waited(a[who], b[who]);
    }
  }

  /** The first job of the list has been finalized. */
  predicate FirstDone(a: map<JobId, Job>, b: map<JobId, Job>, list: seq<JobId>) {
    && list != [] && a.Keys == b.Keys && list[0] in a
    && (forall k <- a :: k != list[0] ==> EnvRely(a[k], b[k]))
    && if Bad(a[list[0]]) then Aborted(b[list[0]]) else Committed(b[list[0]])
  }

  lemma RestOfList(list: seq<JobId>)
    requires NoDup(list) && list != []
    ensures forall k :: k in list[1..] <==> k in list && k != list[0]
  {
    forall k | k in list && k != list[0] ensures k in list[1..] {
      var i :| 0 <= i < |list| && list[i] == k;
      assert list[1..][i - 1] == k;
    }
  }

  lemma AbortNext(a: map<JobId, Job>, b: map<JobId, Job>, list: seq<JobId>, who: JobId, split: bool)
    requires AllOk(a) && AllOk(b) && NoDup(list) && FirstDone(a, b, list) && Completed(a[list[0]].status)
    requires AbortOk(a, list, who, split)
    ensures AbortOk(b, list[1..], who, split)
  {
    RestOfList(list);
    if who in list[1..] && who in b {
      SteadyKeepsLive(a[who], b[who]);
    }
  }

  lemma WoundUpNext(a: map<JobId, Job>, b: map<JobId, Job>, list: seq<JobId>, all: seq<JobId>, who: JobId,
                    split: bool, bad: bool)
    requires AllOk(a) && AllOk(b) && NoDup(list) && FirstDone(a, b, list)
    requires AbortOk(a, list, who, split) && WoundUp(a, list, all, who, bad)
    ensures WoundUp(b, list[1..], all, who, bad)
  {
    RestOfList(list);
    if who in list[1..] {
      SteadyKeepsLive(a[who], b[who]);
    }
  }

  lemma FinishedNext(a: map<JobId, Job>, b: map<JobId, Job>, list: seq<JobId>, all: seq<JobId>, who: JobId,
                     split: bool, bad: bool)
    requires Winding(a, list, all, who, split, bad) && list != [] && Completed(a[list[0]].status)
    requires AllOk(b) && Listed(b, list[1..]) && FirstDone(a, b, list)
    ensures Winding(b, list[1..], all, who, split, bad)
    ensures AllDone(a, list) ==> AllDone(b, list[1..])
  {
    AbortNext(a, b, list, who, split);
    WoundUpNext(a, b, list, all, who, split, bad);
    DoneNext(a, b, list);
  }

  lemma DoneNext(a: map<JobId, Job>, b: map<JobId, Job>, list: seq<JobId>)
    requires AllOk(a) && AllOk(b) && NoDup(list) && FirstDone(a, b, list)
    ensures AllDone(a, list) ==> AllDone(b, list[1..])
  {
    RestOfList(list);
    forall k <- list[1..] | AllDone(a, list) ensures k in b && Completed(b[k].status) {
      SteadyKeepsLive(a[k], b[k]);
    }
  }

  lemma DoneStays(a: map<JobId, Job>, b: map<JobId, Job>, list: seq<JobId>)
    requires AllOk(a) && AllOk(b) && SteadyAll(a, b)
    ensures AllDone(a, list) ==> AllDone(b, list)
  {
    forall k <- list | AllDone(a, list) ensures k in b && Completed(b[k].status) {
      SteadyKeepsLive(a[k], b[k]);
    }
  }

  /** A completed job of the list can be finalized. */
  lemma CanFinalize(jobs: map<JobId, Job>, list: seq<JobId>, who: JobId, split: bool)
    requires AbortOk(jobs, list, who, split) && list != [] && list[0] in jobs && Completed(jobs[list[0]].status)
    ensures jobs[list[0]].status == Pending || Bad(jobs[list[0]])
  {
  }

  /** The jobs before the `i`th have been cancelled, except for job `id`. */
  predicate Cancelling(before: map<JobId, Job>, jobs: map<JobId, Job>, list: seq<JobId>, i: nat, id: JobId) {
    && i <= |list| && SteadyAll(before, jobs) && id in jobs && EnvRely(before[id], jobs[id])
    && forall m :: 0 <= m < i ==> list[m] in jobs && (list[m] != id ==> jobs[list[m]].forceCancel)
  }

  lemma CancelledNext(before: map<JobId, Job>, a: map<JobId, Job>, b: map<JobId, Job>, list: seq<JobId>, i: nat,
                      id: JobId)
    requires i < |list| && Cancelling(before, a, list, i, id) && list[i] in a
    requires if list[i] == id then b == a else Touches(a, b, list[i]) && b[list[i]].forceCancel
    ensures Cancelling(before, b, list, i + 1, id)
  {
    if list[i] != id {
      CancelledOne(before, a, b, list[i], id);
    }
  }

  lemma WaitedSelf(jobs: map<JobId, Job>)
    ensures WaitedAll(jobs, jobs)
  {
  }

  /** What can happen to a job during the wait. */
  datatype Event = Goes(step: CoStep) | Exits | DrainBegins | DrainEnds

  /** A job of the list that exits was cancelled by force, so it goes to ABORTING,
      and job_completed_txn_abort_locked returns at once. */
  method WhileWaiting(j: Job, event: Event, listed: bool) returns (r: Job)
    requires JobOk(j) && (listed && j.co.Returned? ==> j.forceCancel)
    ensures JobOk(r) && Waited(j, r)
  {
    match event {
      case Goes(step) => r := Go(j, step);
      case Exits =>
        if listed && j.co.Returned? {
          ExitAborts(j);
          return UpdateRc(Exit(j));
        }
        return j;
      case DrainBegins => r := Redrain(j, true);
      case DrainEnds => r := Redrain(j, false);
    }
  }

  method Go(j: Job, step: CoStep) returns (r: Job)
    requires JobOk(j)
    ensures JobOk(r) && Waited(j, r)
  {
    r := j;
    if CanStep(j, step) {
      CoKeeps(j, step);
      r := CoApply(j, step);
      EnvWaited(j, r);
    }
  }

  method Redrain(j: Job, begin: bool) returns (r: Job)
    requires JobOk(j)
    ensures JobOk(r) && Waited(j, r)
  {
    r := j;
    PauseKept(j.pause, j.co.NotStarted?, j.options);
    if begin || j.pause.drained > 0 {
      var p := if begin then DrainBegin(j.pause) else DrainEnd(j.pause);
      PausedOk(j, p);
      r := j.(pause := p);
    }
  }

  method LetThemRun(jobs: map<JobId, Job>, list: seq<JobId>, ghost who: JobId, ghost split: bool)
    returns (r: map<JobId, Job>)
    requires AllOk(jobs) && Listed(jobs, list) && AbortOk(jobs, list, who, split)
    ensures StillWaiting(jobs, r, list, who, split)
  {
    WaitedSelf(jobs);
    r := jobs;
    var more: nat := *;
    while more > 0
      invariant StillWaiting(jobs, r, list, who, split)
    {
      var k: JobId, event: Event := *, *;
      if k in r {
        r := WaitStep(jobs, r, list, who, split, k, event);
      }
      more := more - 1;
    }
  }

  method WaitStep(ghost before: map<JobId, Job>, jobs: map<JobId, Job>, list: seq<JobId>, ghost who: JobId,
                  ghost split: bool, k: JobId, event: Event) returns (r: map<JobId, Job>)
    requires StillWaiting(before, jobs, list, who, split) && k in jobs
    ensures StillWaiting(before, r, list, who, split)
  {
    ReturnedIsCancelled(jobs, list, who, split, k);
    var j := WhileWaiting(jobs[k], event, k in list);
    WaitedOne(before, jobs, list, who, split, k, j);
    r := jobs[k := j];
  }

  lemma EnvWaited(j: Job, j': Job)
    requires JobOk(j) && JobOk(j') && EnvRely(j, j')
    ensures Waited(j, j')
  {
    SteadyKeepsLive(j, j');
  }

  lemma ReturnedIsCancelled(jobs: map<JobId, Job>, list: seq<JobId>, who: JobId, split: bool, k: JobId)
    requires AllOk(jobs) && AbortOk(jobs, list, who, split) && k in jobs
    ensures k in list && jobs[k].co.Returned? ==> jobs[k].forceCancel
  {
    assert JobOk(jobs[k]);
  }

  predicate StillWaiting(before: map<JobId, Job>, jobs: map<JobId, Job>, list: seq<JobId>, who: JobId, split: bool) {
    AllOk(jobs) && Listed(jobs, list) && AbortOk(jobs, list, who, split) && WaitedAll(before, jobs)
  }

  lemma WaitedOne(before: map<JobId, Job>, jobs: map<JobId, Job>, list: seq<JobId>, who: JobId, split: bool, k: JobId,
                  j: Job)
    requires StillWaiting(before, jobs, list, who, split) && k in jobs && JobOk(j) && Waited(jobs[k], j)
    ensures StillWaiting(before, jobs[k := j], list, who, split)
  {
    WaitedTrans(before, jobs, k, j);
    WaitedAbort(jobs, list, who, split, k, j);
  }

  lemma WaitedAbort(jobs: map<JobId, Job>, list: seq<JobId>, who: JobId, split: bool, k: JobId, j: Job)
    requires AbortOk(jobs, list, who, split) && k in jobs && Waited(jobs[k], j)
    ensures AbortOk(jobs[k := j], list, who, split)
  {
  }

  lemma WaitedTrans(before: map<JobId, Job>, jobs: map<JobId, Job>, k: JobId, j: Job)
    requires WaitedAll(before, jobs) && k in jobs && Waited(jobs[k], j)
    ensures WaitedAll(before, jobs[k := j])
  {
  }

  lemma CompletedFixed(j: Job, j': Job)
    requires JobOk(j) && EnvRely(j, j') && Completed(j.status)
    ensures j' == j
  {
  }

  lemma FirstLeaves(a: map<JobId, Job>, b: map<JobId, Job>, list: seq<JobId>, j: Job)
    requires AllOk(a) && AllOk(b) && EnvAll(a, b) && Listed(a, list) && list != [] && JobOk(j) && !Live(j)
    ensures AllOk(b[list[0] := j]) && Listed(b[list[0] := j], list[1..]) && (b[list[0] := j]).Keys == a.Keys
    ensures forall k <- a :: k != list[0] ==> EnvRely(a[k], b[list[0] := j][k])
  {
    EnvListed(a, b, list);
    LeaveList(b, list, j);
  }

  lemma EnvListed(a: map<JobId, Job>, b: map<JobId, Job>, list: seq<JobId>)
    requires AllOk(a) && AllOk(b) && EnvAll(a, b) && Listed(a, list)
    ensures Listed(b, list)
  {
    SteadyListed(a, b, list);
  }

  /** The first job of the list is over and leaves it. */
  lemma LeaveList(jobs: map<JobId, Job>, list: seq<JobId>, j: Job)
    requires AllOk(jobs) && Listed(jobs, list) && list != [] && JobOk(j) && !Live(j)
    ensures AllOk(jobs[list[0] := j]) && Listed(jobs[list[0] := j], list[1..])
  {
    var b := jobs[list[0] := j];
    forall id <- b ensures id in list[1..] <==> Live(b[id]) {
      assert id in list[1..] ==> id in list;
      if id in list && id != list[0] {
        var i :| 0 <= i < |list| && list[i] == id;
        assert list[1..][i - 1] == id;
      }
      assert list[0] !in list[1..];
    }
  }

  lemma TouchOne(jobs: map<JobId, Job>, id: JobId, j: Job)
    requires AllOk(jobs) && id in jobs && JobOk(j) && Steady(jobs[id], j)
    ensures AllOk(jobs[id := j]) && Touches(jobs, jobs[id := j], id)
  {
  }

  lemma EnvTouches(a: map<JobId, Job>, b: map<JobId, Job>, id: JobId)
    requires EnvAll(a, b) && id in a
    ensures Touches(a, b, id)
  {
  }

  lemma TouchesTrans(a: map<JobId, Job>, b: map<JobId, Job>, c: map<JobId, Job>, id: JobId)
    requires Touches(a, b, id) && Touches(b, c, id)
    ensures Touches(a, c, id)
  {
    forall k <- a ensures Steady(a[k], c[k]) && (k != id ==> EnvRely(a[k], c[k])) {
      SteadyTrans(a[k], b[k], c[k]);
    }
  }

  lemma TouchesListed(a: map<JobId, Job>, b: map<JobId, Job>, list: seq<JobId>, id: JobId)
    requires AllOk(a) && AllOk(b) && Touches(a, b, id) && Listed(a, list)
    ensures Listed(b, list)
  {
    SteadyListed(a, b, list);
  }

  lemma TouchesQuiet(a: map<JobId, Job>, b: map<JobId, Job>, list: seq<JobId>, aborting: bool, who: JobId, split: bool,
                     id: JobId)
    requires AllOk(a) && AllOk(b) && Touches(a, b, id) && b[id].forceCancel == a[id].forceCancel
    requires Listed(a, list) && TxnOk(a, list, aborting, who, split)
    ensures Listed(b, list) && TxnOk(b, list, aborting, who, split)
  {
    QuietTxn(a, b, list, aborting, who, split);
  }

  lemma EnvSelf(jobs: map<JobId, Job>)
    requires AllOk(jobs)
    ensures EnvAll(jobs, jobs)
  {
  }

  lemma EnvTrans(a: map<JobId, Job>, b: map<JobId, Job>, c: map<JobId, Job>)
    requires EnvAll(a, b) && EnvAll(b, c)
    ensures EnvAll(a, c)
  {
    forall id <- a ensures EnvRely(a[id], c[id]) {
      SteadyTrans(a[id], b[id], c[id]);
    }
  }

  lemma StepAll(before: map<JobId, Job>, jobs: map<JobId, Job>, id: JobId, step: CoStep)
    requires AllOk(jobs) && EnvAll(before, jobs) && id in jobs && CanStep(jobs[id], step)
    ensures AllOk(jobs[id := CoApply(jobs[id], step)]) && EnvAll(before, jobs[id := CoApply(jobs[id], step)])
  {
    CoKeeps(jobs[id], step);
    SteadyTrans(before[id], jobs[id], CoApply(jobs[id], step));
  }
}
