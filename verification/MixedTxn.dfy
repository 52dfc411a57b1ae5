/**
 * A transaction whose jobs are not all committed or all aborted (job.c).
 */
module MixedTxn {
  import opened Jobs
  import opened JobTxns
  import Opt = Options

  /** A job that runs, without having stopped on an error. */
  predicate RunsWell(j: Job) { j.co.InRun? && !Bad(j) && j.status == Running && j.pause.reports == 0 }

  /** A job whose run has just ended well. */
  predicate RanWell(j: Job) { j.co.Returned? && !Bad(j) && !Completed(j.status) }

  lemma StartedIs(j: Job)
    requires JobOk(j) && j.status == Created && !Bad(j)
    ensures RunsWell(Started(j))
  {
  }

  lemma ReturnedIs(j: Job)
    requires RunsWell(j)
    ensures RanWell(CoApply(j, Return(0)))
  {
  }

  /** A job joins the transaction. */
  method CreateNew(t: JobTxn, id: JobId, options: Options)
    requires t.Valid() && !t.aborting && id !in t.jobs && Untouched(t.jobs)
    requires forall k <- t.list :: t.jobs[k].status != Pending
    modifies t`jobs, t`list
    ensures t.Valid() && id in t.jobs && t.jobs == old(t.jobs)[id := t.jobs[id]] && t.list == [id] + old(t.list)
    ensures t.jobs[id].status == Created && !Bad(t.jobs[id])
  {
    NewJobIs(options);
    t.Create(id, options);
  }

  /** It is started. */
  method StartNew(t: JobTxn, id: JobId)
    requires t.Valid() && !t.aborting && id in t.list && t.jobs[id].status == Created && !Bad(t.jobs[id])
    modifies t`jobs
    ensures t.Valid() && id in t.jobs && t.jobs == old(t.jobs)[id := t.jobs[id]]
    ensures RunsWell(t.jobs[id])
  {
    StartedIs(t.jobs[id]);
    t.Start(id);
  }

  /** It ends well. */
  method EndWell(t: JobTxn, id: JobId)
    requires t.Valid() && id in t.jobs && RunsWell(t.jobs[id])
    modifies t`jobs
    ensures t.Valid() && id in t.jobs && t.jobs == old(t.jobs)[id := t.jobs[id]] && RanWell(t.jobs[id])
  {
    ReturnedIs(t.jobs[id]);
    t.CoroutineStep(id, Return(0));
  }

  method TwoCreated(t: JobTxn, options: Options)
    requires t.Valid() && !t.aborting && t.jobs == map[] && t.list == []
    modifies t`jobs, t`list
    ensures t.Valid() && t.list == [1, 0] && t.jobs.Keys == {0, 1}
    ensures forall k <- t.jobs :: t.jobs[k].status == Created && !Bad(t.jobs[k])
  {
    CreateNew(t, 0, options);
    CreateNew(t, 1, options);
  }

  method TwoReturned(t: JobTxn)
    requires t.Valid() && !t.aborting && t.list == [1, 0] && t.jobs.Keys == {0, 1}
    requires forall k <- t.jobs :: t.jobs[k].status == Created && !Bad(t.jobs[k])
    modifies t`jobs
    ensures t.Valid() && t.jobs.Keys == {0, 1} && RanWell(t.jobs[0]) && RanWell(t.jobs[1])
  {
    StartNew(t, 0);
    StartNew(t, 1);
    EndWell(t, 0);
    EndWell(t, 1);
  }

  /** Job 0 is the last one to complete, so it finalizes both, unless that is to
      be done by hand. */
  method CompleteBoth(t: JobTxn, prepare: JobId -> int)
    requires t.Valid() && !t.aborting && t.list == [1, 0] && t.jobs.Keys == {0, 1} && RanWell(t.jobs[0]) && RanWell(t.jobs[1])
    modifies t
    ensures t.Valid() && t.Idle() && t.jobs.Keys == {0, 1}
    ensures if t.list == [] then FinalizedAs(t.jobs, [1, 0], 0, FirstFailing([1, 0], prepare))
            else t.list == [1, 0] && t.jobs[0].status == Pending
  {
    assert 0 in t.list && 0 in t.jobs - {1};
    var finished := t.JobCompleted(1, prepare);
    assert !RunningIn(t.jobs - {0}, t.list);
    finished := t.JobCompleted(0, prepare);
  }

  method FinalizeBoth(t: JobTxn, prepare: JobId -> int)
    requires t.Valid() && !t.aborting && t.list == [1, 0] && t.jobs.Keys == {0, 1} && RanWell(t.jobs[0]) && RanWell(t.jobs[1])
    modifies t
    ensures t.Valid() && t.list == [] && t.jobs.Keys == {0, 1}
    ensures FinalizedAs(t.jobs, [1, 0], 0, FirstFailing([1, 0], prepare))
  {
    CompleteBoth(t, prepare);
    if t.list != [] {
      var ok := t.FinalizeCommand(0, prepare);
    }
  }

  /** A transaction that ends mixed: both its jobs have ended well, job 0 finalizes
      them, at once or by hand, and the prepare of job 1 fails. */
  method MixedOutcome(options: Options) returns (t: JobTxn)
    ensures t.Valid() && t.list == [] && t.jobs.Keys == {0, 1}
    ensures Committed(t.jobs[0]) && Aborted(t.jobs[1]) && !AllOrNothing(t.jobs)
  {
    t := new JobTxn();
    TwoCreated(t, options);
    TwoReturned(t);
    var prepare: JobId -> int := k => if k == 1 then -1 else 0;
    FinalizeBoth(t, prepare);
    assert FirstFailing([1, 0], prepare) == Opt.Some(1);
  }
}
