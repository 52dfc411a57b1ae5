# Verified models of QEMU's exclusive sections, block graph, image tools and jobs

This project models five pieces of QEMU and proves what they promise, over every
run, every graph or every image.

* **Exclusive sections** (`cpu-common.c`). Any number of CPUs come and go, enter
  and leave guest execution and ask for exclusive sections. Every shared access is
  a step of its own, and stores sit in a per-thread store buffer until a barrier
  or the buffer drains them, as on x86. Exclusion, an exact count and freedom from
  deadlock and lost wake-ups are proved for every interleaving; for each of the
  three barriers there is a run in which its absence does harm.
* **The block graph** (`block.c`). Nodes and edges with roles, permissions and
  frozen links. Operations change edges, then refresh permissions in topological
  order, inside a transaction that may be rolled back. Acyclicity, consistency of
  permissions after a refresh, exact rollback and conservation of references are
  invariants of the class `BlockLayer`. `AioContexts` adds the move of connected
  nodes to another AioContext, which happens as a whole or not at all.
* **qemu-img convert** (`qemu-img.c`). The decisions about one request are methods;
  the coroutines that claim, read, order and write requests are a transition
  system over any number of coroutines. When a conversion reports success the
  target shows the source, exactly.
* **qemu-img rebase and compare** (`qemu-img.c`). Rebase keeps the visible content
  byte for byte at any moment; compare is equality of zero-padded images.
* **Jobs** (`job.c`, `blockjob.c`). A job's states, coroutine, pause count and
  callbacks over all its runs, and transactions of jobs that are committed or
  aborted together.

## How it is organized

| files | content |
|---|---|
| `Options`, `Sequences`, `Digraph`, `Alignment`, `Sectors`, `ImageBytes` | small libraries |
| `ExclusiveSection`, `ExclusiveBarriers` | exclusive sections |
| `BlockPerms`, `BlockGraph`, `BlockSearch`, `BlockRefresh`, `BlockReplace`, `BlockTran`, `BlockLayer` | the block graph, from permission sets to the public operations |
| `AioContexts` | changing the AioContext of connected nodes |
| `ConvertSparse`, `ConvertCopy`, `ConvertRun`, `ConvertSafety`, `ConvertResults` | convert: one request, the coroutines, their invariant, the results |
| `Rebase`, `Compare` | rebase and compare |
| `Jobs`, `JobRuns` | one job: its steps, and its runs as far as pauses and I/O errors go |
| `JobTxns`, `MixedTxn` | a transaction of jobs, and one that ends mixed |

`dafny verify dfyconfig.toml` checks everything.

## What the models take for granted

* Transactions follow `util/transactions.c`: callbacks see the newest entry first,
  and `tran_finalize` aborts on failure.
* Driver callbacks for permissions are arbitrary functions of a node, an edge, a
  role and the cumulative permissions.
* Block status answers are truthful: a run of at least one sector or byte with one
  status; ZERO, or not allocated anywhere, reads as zeros; a target said to be
  zero-initialized is zero; a sector that is unallocated above the backing file of
  the source already shows through the target's backing file.
* A failed `copy_range` leaves each sector of the target as it was or as the source
  has it; a failed write may leave anything in the sectors it covers.
* Writes to an overlay allocate whole clusters.
* A job driver's `cancel` never weakens a forced request and forces the request for a
  job that is not ready; a driver announces READY at most once; driver callbacks do
  not issue job commands. Errors are reported to a job from coroutines, so that in the
  main loop `aio_co_wake` only queues the job (util/async.c:699-713), and only while its
  driver runs: `mirror` sets its filter up in `run` (block/mirror.c:1034) and waits for
  its other coroutines before it returns (block/mirror.c:1152-1162).

## Where the code differs from what one might expect

* `is_allocated_sectors` does not return the state of the first sector, as its
  comment says: a run of zeros that ends in the alignment block it began in counts
  as data. `ConvertSparse.ZeroTakenForData` is an input, and
  `ConvertSparse.IsAllocatedSectors` states the exact condition.
* Job transactions are not always all-or-nothing. When the prepare of another job
  than the one that finalizes fails, the finalizing job is committed while all
  others are aborted (job.c:942-951 leaves it uncancelled). `JobCompleted` and
  `FinalizeCommand` state exactly when this happens, and
  `MixedTxn.MixedOutcome` is a transaction of two jobs in which it does.
* The assertion in `block_job_iostatus_reset_locked` can fail for a job that has
  been in an iothread: `job_user_resume_locked` releases the lock around
  `user_resume`, and an error that stops the job just then stays recorded although
  the user's pause ends. The next `cont` meets it, even if the job has moved back to
  the main loop by then. `JobRuns.LostStop` is such a run, and
  `JobRuns.ResetAssertion` says that the assertion holds in every run of a job
  exactly if the job never leaves the main loop.
* `pause_count` can exceed what it stands for. `block_job_error_action` counts a pause
  before it sets `user_paused`, and in between `job_enter_cond_locked` releases the
  lock if the job sleeps. `mirror` reports errors from other coroutines than the job's
  own, so for a job in an iothread the user's pause can be counted in that gap, too.
  Once the user has resumed, the count is 1, and no command brings it down again
  (`JobRuns.DoublePause`, `JobRuns.StuckPause`, `JobRuns.PausedForGood`).
  `JobRuns.PauseCount` says that the count is exact in every run of a job exactly if the
  job, with all who report errors to it, never leaves the main loop, or only its own
  coroutine reports errors; that it is never too low, which the assertions before a decrement need, holds for all jobs.

## Model

| member | source | states |
|---|---|---|
| ExclusiveSection.ExclusionHolds | cpu-common.c:192-322 | In every state of every run with all barriers, while a thread is in its exclusive section no CPU executes and no other thread is in a section, for any number of CPUs and any order of store-buffer drains |
| ExclusiveSection.NextKeeps | cpu-common.c:82-322 | Every single step of every thread (statements, drains, wake-ups, broadcasts, CPUs added and removed) keeps the protocol's invariant |
| ExclusiveSection.CountIsExact | cpu-common.c:205-233 | After the scan pending_cpus is 1 plus the number of CPUs with has_waiter, and no counted CPU is parked or asleep |
| ExclusiveSection.CallerIsNotRunning | cpu-common.c:192-200 | Whoever may call start_exclusive is not marked running, neither in memory nor in a store on its way, so the assertion there holds |
| ExclusiveSection.NeverStuck | cpu-common.c:183-322 | While any thread is inside one of the four functions some thread can move; for a requester asleep on exclusive_cond it is a counted CPU or the lock holder, so no wake-up is lost |
| ExclusiveSection.CountedCpusAdvance | cpu-common.c:220-322 | While a requester sleeps no CPU becomes counted, no other thread disturbs a counted one, and each of its own steps brings it strictly closer to being uncounted |
| ExclusiveSection.NestedPairIsIdle | cpu-common.c:192-247 | A nested start/end pair inside a section restores the whole state |
| ExclusiveBarriers.StartFenceNeeded | cpu-common.c:250-270 | Without the barrier in cpu_exec_start a reachable state violates exclusion |
| ExclusiveBarriers.RequestFenceNeeded | cpu-common.c:205-220 | Without the barrier in start_exclusive a reachable state violates exclusion |
| ExclusiveBarriers.EndFenceNeeded | cpu-common.c:290-322 | Without the barrier in cpu_exec_end a reachable state has a requester asleep and nobody who can move |
| BlockPerms.DefaultPermsMonotone | block.c:2750-2898 | Loosening what a node's users ask loosens what it asks of its children, in every role and for all flags |
| BlockSearch.TopologicalDfs | block.c:2289-2312 | Extends a topological list by exactly what the node reaches, parents before children, without duplicates, with a shared table of found nodes |
| BlockSearch.TopologicalList | block.c:2609-2621 | Repeated searches give a duplicate-free list of exactly the nodes reachable from the roots, every parent before its children |
| BlockSearch.RecurseHasChild | block.c:4302-4318 | On an acyclic graph the recursion without a visited set terminates and decides reachability |
| BlockSearch.ShouldUpdateChild | block.c:5198-5275 | The breadth-first search returns false exactly for an edge whose class stays with its node or whose owner is reachable from the new node |
| BlockRefresh.RefreshMakesFresh | block.c:2499-2621 | After a successful refresh over a list with parents first, every listed node is free of conflicts, passes its checks and has its children's permissions as its driver wants for its final cumulative permissions |
| BlockRefresh.RefreshFrame | block.c:2499-2599 | A refresh changes no edge whose owner is not on the list |
| BlockRefresh.LooseningIsSafe | block.c:2499-2599 | In a graph that is looser than a consistent one a refresh only loosens, and cannot fail with a parent conflict or for want of write access, only with the alignment check or a driver's refusal |
| BlockRefresh.DefaultDriversAreMonotone | block.c:2877-2898 | Drivers that use the default permission functions satisfy the monotonicity that LooseningIsSafe needs |
| BlockReplace.MoveIsAcyclic | block.c:5316-5348 | Redirecting any number of the users that should_update_child lets go from one node to another keeps an acyclic graph acyclic |
| BlockReplace.RefusedMoveIsCyclic | block.c:5198-5275 | Moving an edge that was refused because of its owner would close a cycle, so the test is exact |
| BlockTran.ReplaceStep | block.c:2468-2489 | A redirected edge and its log entry keep graph, rollback and reference count right |
| BlockTran.SetPermStep | block.c:2320-2351 | The same for a change of permissions |
| BlockTran.AttachStep | block.c:3064-3156 | The same for a new edge |
| BlockTran.RemoveStep | block.c:5281-5307 | The same for an edge that is to be freed on commit |
| BlockLayer.GetCumulativePerm | block.c:2623-2639 | The loop computes the union of the parents' permissions and the intersection of what they share |
| BlockLayer.ParentPermsConflict | block.c:2234-2258 | Finds a conflict exactly if two different parents have one, in either direction |
| BlockLayer.BlockLayer.PointedAtIsAlive | block.c:7106-7148 | A node that an edge points at has at least one reference |
| BlockLayer.BlockLayer.ReplaceChildNoperm | block.c:2923-2984 | Redirects one edge and keeps the parent's backing and file links in step |
| BlockLayer.BlockLayer.ReplaceChildTran | block.c:2468-2489 | Redirects one edge in a transaction; undoing the log still gives the old graph |
| BlockLayer.BlockLayer.ChildSetPerm | block.c:2335-2351 | Changes one edge's permissions in a transaction; undoing the log still gives the old graph |
| BlockLayer.BlockLayer.DriverSetPerm | block.c:2386-2406 | Fails exactly if the driver refuses; otherwise puts one entry for its consent on the log, and changes nothing else |
| BlockLayer.BlockLayer.NodeRefreshPerm | block.c:2498-2568 | Fails exactly as the checks on the cumulative permissions say; otherwise each child edge has what the driver wants |
| BlockLayer.BlockLayer.DoRefreshPerms | block.c:2577-2599 | The loop is the refresh function over the list, including which error comes first |
| BlockLayer.BlockLayer.RefreshPerms | block.c:2609-2695 | A refresh from roots makes everything below them fresh or fails, and changes nothing elsewhere |
| BlockLayer.BlockLayer.TranAbort | util/transactions.c:60-79 | Undoing the log gives back exactly the edges and permissions from before the transaction; the links follow the edges, and the references that the log stands for are dropped or scheduled to be dropped |
| BlockLayer.BlockLayer.TranCommit | util/transactions.c:81-100 | Committing keeps the edges except those to be freed, and gives up the log's references |
| BlockLayer.BlockLayer.AttachChildCommon | block.c:3064-3156 | A new edge takes a reference and its slot, or nothing happens |
| BlockLayer.BlockLayer.AttachChildNoperm | block.c:3167-3194 | Succeeds exactly if the contexts agree and the new arc closes no cycle |
| BlockLayer.BlockLayer.RemoveChildTran | block.c:5295-5307 | Detaches an edge, unless it is empty already, and schedules it to be freed |
| BlockLayer.BlockLayer.ReplaceNodeNoperm | block.c:5316-5348 | Moves exactly the users that may move, or stops at one that may neither move nor be skipped |
| BlockLayer.BlockLayer.ChildTrySetPerm | block.c:2697-2729 | Applies and refreshes, or restores everything; a failure is hidden exactly when the caller was loosening |
| BlockLayer.BlockLayer.ReplaceNode | block.c:5363-5418 | On success the users have moved, the link that leads to the new node in the chain is gone if asked for, and all below is fresh; on failure edges, permissions, links and owners are as before, and there was a user in the way or a refresh that fails |
| BlockLayer.BlockLayer.FindChainLink | block.c:5378-5387 | The walk along filters and backing files ends at the link that leads to the node, if the chain contains it |
| BlockLayer.BlockLayer.Append | block.c:5458-5500 | On success the new node sits between the top node and its users and all is fresh; on failure all is as before, with the reason |
| BlockLayer.BlockLayer.SetFileOrBacking | block.c:3436-3552 | Replaces or removes a backing or file link and refreshes when the driver, the frozen flag and the role allow it, the new link closes no cycle and the contexts agree; on failure all is as before, and one of these or the refresh was the reason |
| BlockLayer.BlockLayer.AttachToNode | block.c:3242-3273 | Uses up the caller's reference in both outcomes; on failure the graph is as before, with the reason |
| BlockLayer.BlockLayer.RootAttachChild | block.c:3203-3232 | The same for a user outside the graph |
| BlockLayer.BlockLayer.RootUnrefChild | block.c:3276-3301 | The edge is gone in any case and its reference is given back; from a consistent graph with monotone drivers the refresh cannot fail with a conflict or for want of write access, and nothing becomes stricter |
| BlockLayer.BlockLayer.RunScheduledUnref | block.c:7115-7148 | A scheduled unref drops one reference; when the count reaches zero no edge, open transaction, other unref or owner refers to the node |
| BlockLayer.UnrefIsSafe | block.c:3276-3301 | In a consistent graph with monotone drivers, removing an edge and refreshing cannot fail with a conflict or a read-only violation |
| AioContexts.ContextChange.ChangeNode | block.c:7590-7631 | The recursion ends although it visits nodes more than once, enlists the node and everything its edges lead to, and begins one drained section per entry |
| AioContexts.ContextChange.ChangeParent | block.c:7515-7541 | Visits an edge to the node once; fails exactly at a user that cannot follow |
| AioContexts.ContextChange.ChangeChild | block.c:7543-7553 | Visits an edge from the node once and goes on at its child |
| AioContexts.ContextChange.ChangeJob | blockjob.c:147-171 | All the nodes of a job follow |
| AioContexts.ComponentEnlisted | block.c:7590-7631 | When the search is over exactly the nodes that the change spreads to from the first one are enlisted |
| AioContexts.ContextChange.TryChange | block.c:7640-7677 | For any contexts: succeeds exactly if no node that the change spreads to, which is not through ignore_child nor through a node already in the new context, has a user that cannot follow; then exactly these nodes move, otherwise none does; all drained sections are ended in both cases |
| AioContexts.MovesTogether | block.c:7633-7677 | If connected nodes share a context, the whole component moves, and connected nodes share a context again |
| ConvertSparse.IsAllocatedSectors | qemu-img.c:1179-1230 | The exact condition for data, zero runs that are zero, ends that are aligned, and no needless zero block at either end |
| ConvertSparse.ZeroTakenForData | qemu-img.c:1169-1230 | A buffer whose first sector is zero and for which the answer is data, against the comment |
| ConvertSparse.IsAllocatedSectorsMin | qemu-img.c:1237-1274 | Stops only at a zero run of at least the minimum or at the end, and never reports data as zero |
| Sectors.ConcatPart | qemu-img.c:1704-1714 | Each source is found in the concatenation at its offset |
| ConvertCopy.SelectPart | qemu-img.c:1704-1714 | Finds the source that holds a sector, and the assertion on the index holds |
| ConvertCopy.ConvertState.QueryStatus | qemu-img.c:1738-1801 | The status derived from a truthful answer is right for the whole run it is cached for; without salvaging it fails exactly if the query does, with salvaging it asks for ever shorter runs and in the end takes a sector for data |
| ConvertCopy.ConvertState.IterationSectors | qemu-img.c:1717-1821 | The next request is not empty, stays inside the source and the buffer, has the status that was answered or cached, right for all its sectors, goes as far as that status, and covers whole clusters when compressed; it fails exactly if nothing was cached and the query is refused |
| ConvertCopy.ConvertState.CountAllocated | qemu-img.c:2118-2134 | The first pass goes through requests that cover the source without gap or overlap, counts exactly the sectors of those that will be written, and leaves an empty, valid status cache |
| ConvertCopy.ConvertState.CoRead | qemu-img.c:1823-1874 | Gathers exactly the requested sectors of the concatenation, across sources, if no read fails; with salvaging it always succeeds, and only sectors that cannot be read one by one become zeros |
| ConvertCopy.WriteNext | qemu-img.c:1884-1925 | One turn of the write loop: exactly when it writes data, writes zeroes or skips, per status, sparseness and compression |
| ConvertCopy.ChunkCopies | qemu-img.c:1877-1939 | Whatever that turn does, data, zeroes or nothing, the sector then shows the source |
| ConvertCopy.ConvertState.CoWrite | qemu-img.c:1877-1939 | Succeeds if every request does; then the target shows the source in the whole range; nothing else is touched |
| ConvertCopy.ConvertState.CoCopyRange | qemu-img.c:1941-1970 | Succeeds if every request does; then the target shows the source in the range; on failure it can still be written again |
| ConvertRun.StepLocal | qemu-img.c:1972-2093 | Each step of a coroutine keeps its piece of the target and its buffer as they should be |
| ConvertRun.OtherLocal | qemu-img.c:1972-2093 | No step of a coroutine disturbs another one's piece |
| ConvertSafety.OneWaiter | qemu-img.c:2072-2082 | At most one coroutine waits for a sector, so the loop that wakes it may stop at the first |
| ConvertSafety.NextKeeps | qemu-img.c:1972-2093 | Every step of every coroutine keeps the invariant of the whole conversion |
| ConvertResults.CopyIsExact | qemu-img.c:1972-2156 | When the result is 0 the claims partition the source, the target equals the concatenated sources, and behind them it is unchanged, for every interleaving and across data, zero, backing, sparse, compressed and copy_range fallback paths |
| ConvertResults.OrderedWrites | qemu-img.c:2040-2083 | With ordered writes and no error, the target is the source up to wr_offs and untouched from there on, except in the piece that begins at wr_offs |
| ConvertResults.WaiterIsWoken | qemu-img.c:2040-2083 | In every state of every run, with or without an error, a waiting coroutine is alone in waiting for its sector, an unfinished piece ends exactly there, and some piece below is not waiting |
| ConvertResults.NeverStuck | qemu-img.c:1972-2093 | In every state of every run, as long as a coroutine is not done some coroutine can go on |
| ConvertResults.RunsEnd | qemu-img.c:1972-2156 | A run has at most 16 steps per sector and 5 per coroutine; when it cannot go on all coroutines are done and the result is success or an error |
| ImageBytes.CompareBuffers | qemu-img.c:1284-1309 | A maximal prefix of chunks that all agree or all differ |
| Rebase.IsAllocatedAbove | block/io.c:2623-2827 | A non-empty run that no image above the base has changed reads the same through the chain and from the base on, short images included |
| Rebase.WholeClusters | qemu-img.c:3902-3915 | Extending an unallocated run to cluster boundaries stays unallocated, as asserted there |
| Rebase.ReadPadded | qemu-img.c:3917-3946 | A backing file reads as zeros behind its end; the read fails exactly if there is something to read and the request fails |
| Rebase.Image.Write | qemu-img.c:3957-3968 | After every byte of a write the visible content is unchanged; it succeeds exactly if every byte can be written |
| Rebase.Image.CopyDifferences | qemu-img.c:3948-3975 | Where old and new backing file differ the old content goes into the overlay, in whole clusters, zeros behind the end of the old one; it succeeds if every write does |
| Rebase.Image.CopyBeforeRebase | qemu-img.c:3855-3978 | Whenever the loop stops the image reads as before; when it reaches the end, which it does if no request fails, it reads the same over the new backing file; only clusters in which the backing files differ are allocated; it makes progress although the offset is rounded down |
| Rebase.Image.SafeRebase | qemu-img.c:3793-3990 | A guest sees the same content before and after, whether the rebase succeeds or fails anywhere; it succeeds if no request fails and the header can be changed |
| Compare.FindNonzero | qemu-img.c:1153-1167 | The first sector with a byte that is not zero, or none |
| Compare.CheckEmptySectors | qemu-img.c:1328-1349 | Zero where the other image has nothing, or the first mismatch |
| Compare.CompareData | qemu-img.c:1545-1570 | Equal data, or the first mismatch |
| Compare.CompareImages | qemu-img.c:1500-1631 | Without I/O errors the non-strict result says identical exactly if the zero-padded images are equal; a reported offset is where they first differ; strict mode adds sizes and block status |
| Jobs.CoKeeps | job.c:532-636 | Every step of a job's coroutine, and every error reported from another one, takes only JobSTT edges and keeps the job well-formed |
| Jobs.PauseKept | job.c:684-752 | pause_count is never below the start to come plus the user's pause, the drained sections and the errors being reported, and equal to it for jobs that nobody can disturb meanwhile, under every operation; so it is positive before every decrement |
| JobRuns.LostStop | blockjob.c:557-624 | For every job that may leave the main loop, a run in which an error stops the job between the reset of its I/O status and the end of the user's pause, after which the assertion of the reset does not hold |
| JobRuns.StepKeeps | job.c:532-752 | Every step of any coroutine and of the main loop, from the start to the dismissal and with moves between contexts, keeps the job well-formed, and no pause that was counted too often is taken back |
| JobRuns.ResetAssertion | blockjob.c:557-565 | The assertion of the reset holds in every state of every run exactly if the job never leaves the main loop |
| JobRuns.PauseCount | blockjob.c:580-624 | In every state of every run pause_count is the start to come plus the user's pause plus the drained sections, exactly if the job never leaves the main loop or only its own coroutine reports errors |
| JobRuns.DoublePause | blockjob.c:611-621 | For every job that may leave the main loop and gets errors from other coroutines, a run in which one pause of the user is counted twice |
| JobRuns.StuckPause | job.c:734-752 | And when the user has resumed, the count is 1 with no pause of the user, no drained section and no error report to end |
| JobRuns.PausedForGood | job.c:684-752 | In every run, once a pause has been counted too often pause_count stays positive |
| Jobs.FailJob | job.c:798-809 | A job that failed or was cancelled by force goes to ABORTING from every state in which it can complete |
| Jobs.SucceedJob | job.c:1031-1036 | A job that ended well goes to WAITING |
| Jobs.FinalizeJob | job.c:840-877 | Exactly one of commit and abort, according to the result, then clean; the way to CONCLUDED or NULL is allowed by JobSTT |
| Jobs.PrepareJob | job.c:966-981 | A prepare that fails leaves the job ABORTING with that result |
| JobTxns.JobTxn.Interleave | job.c:532-600 | Wherever job_mutex is released, any steps of coroutines leave other jobs and completed jobs alone |
| JobTxns.JobTxn.CallUserResume | blockjob.c:557-578 | The reset's assertion holds when it is called for a paused job |
| JobTxns.JobTxn.CancelAsync | job.c:882-918 | A forced request, and any request for an unstarted job, cancels by force; the user's pause ends; only this job is touched |
| JobTxns.JobTxn.FinalizeFirst | job.c:840-877 | The first job of the list is committed or aborted and leaves the transaction |
| JobTxns.JobTxn.Wait | job.c:1236-1264 | While the abort waits, jobs that exit were cancelled and go to ABORTING, and drained sections come and go; the assertion on cancelled siblings holds |
| JobTxns.JobTxn.TxnAbort | job.c:923-963 | Every job but the initiating one is aborted; that one too, unless its result is 0 and it was not cancelled by force; there is nothing to wait for if all jobs have completed |
| JobTxns.JobTxn.PrepareAll | job.c:177-200 | Prepares in list order up to the first failure |
| JobTxns.JobTxn.CommitAll | job.c:990-1002 | All jobs are committed and the list is empty |
| JobTxns.JobTxn.DoFinalize | job.c:990-1002 | It always ends: all committed if no prepare fails; otherwise all aborted, except the finalizing job exactly if the failure was another job's |
| JobTxns.JobTxn.TxnSuccess | job.c:1031-1055 | The assertion that completed siblings have result 0 holds; nothing happens while a job runs, then all become PENDING at once and are finalized, with the outcome of DoFinalize, unless one is to be finalized by hand |
| JobTxns.JobTxn.JobCompleted | job.c:1058-1090 | A failure or forced cancel aborts the whole transaction; a job that ends well waits for the others, and the last one finalizes them or leaves them PENDING; the outcome is mixed exactly if the last one ends well, all are finalized at once and the first prepare to fail is another job's |
| JobTxns.JobTxn.Create | job.c:385-450 | A new job in the transaction keeps the invariant |
| JobTxns.JobTxn.Start | job.c:1115-1129 | Starting a job keeps the invariant and takes one from the pause count |
| JobTxns.JobTxn.CoroutineStep | job.c:603-680 | A step of a coroutine keeps the transaction's invariant |
| JobTxns.JobTxn.DrainedBegin | blockjob.c:93-97 | One more drained section, counted as a pause |
| JobTxns.JobTxn.DrainedEnd | blockjob.c:123-127 | One drained section less; the assertion in job_resume_locked holds |
| JobTxns.JobTxn.UserPauseCommand | job.c:716-727 | Accepted exactly by the verb table for a job the user has not paused |
| JobTxns.JobTxn.UserResumeCommand | job.c:734-752 | Accepted exactly by the verb table for a job the user has paused; the user's pause ends, drained sections stay, and only a new I/O error can have paused the job again |
| JobTxns.JobTxn.ResetForCont | monitor/qmp-cmds.c:92-97 | When the assertion fails, which is never for a job that stays in the main loop; otherwise the error is forgotten and the invariant kept |
| JobTxns.JobTxn.CompleteCommand | job.c:1217-1234 | Accepted exactly by the verb table, for a job not asked to cancel whose driver can complete; only coroutines take steps |
| JobTxns.JobTxn.FinalizeCommand | job.c:1004-1011 | Accepted exactly when PENDING, with the outcome of DoFinalize; a mixed outcome arises exactly if another job's prepare fails first |
| JobTxns.JobTxn.DismissCommand | job.c:755-779 | Accepted exactly when CONCLUDED |
| JobTxns.JobTxn.EarlyFail | job.c:781-786 | A job that was never started leaves without callbacks |
| JobTxns.JobTxn.Cancel | job.c:1131-1157 | A running job is marked cancelled; a forced cancel of a job that never ran or is already done aborts the whole transaction |
| JobTxns.JobTxn.UserCancelCommand | job.c:1159-1165 | Accepted exactly by the verb table; otherwise nothing changes |
| JobTxns.JobTxn.EveryJobOk | job.c:59-84 | In every reachable state each job's history of statuses is a path of JobSTT; its pause count is not below what it stands for, and equal to it under the condition of PauseCount; an I/O error of a job that stays in the main loop is recorded only while the user's pause lasts; a job that is concluded or dismissed has had exactly one of commit and abort, then clean, unless it left before it was started, without any callback; and none before |
| JobTxns.JobTxn.AllTogether | job.c:923-1069 | In every reachable state no job of a transaction is committed while another is aborted, unless another job's prepare has failed |
| JobTxns.NotTogether | job.c:942-951 | After a finalization the outcome is mixed if and only if the first failing prepare is not the finalizing job's |
| MixedTxn.MixedOutcome | job.c:923-1011 | For all options, a transaction of two jobs that both end well, in which one is committed and the other aborted |

## Left out

- The guest execution loop setting `running` inside a section (accel/tcg), work queues and `async_safe_run_on_cpu`.
- Permission bits beyond `BLK_PERM_ALL`, `inherits_from`, block limits, the order of the parents list, and `open_flags` (not rolled back on abort).
- Draining, quiescing and the graph lock in block.c, except for the balance of drained sections in `AioContexts`; deletion of nodes when the last reference is dropped.
- `bdrv_replace_child_bs`, which has no cycle check of its own, and the reopen queue.
- BlockLayer.BlockLayer.AttachChildCommon: the change of AioContext is the parameter `ctxOk`; `AioContexts` models it separately and without the contexts of BlockBackends.
- BlockLayer.BlockLayer.Append: whether the edges of the new node can take the slot is a precondition.
- BlockLayer.BlockLayer.RootUnrefChild: the return of the node to the main AioContext is left out; an empty child would fail an assertion of `bdrv_replace_child_noperm` (block.c:2952).
- ConvertCopy.ConvertState.QueryStatus: status runs are whole sectors, so the rounding up of a run that ends inside a sector is not modelled.
- ConvertResults.CopyIsExact: for conversions without salvaging, which puts zeros in place of what cannot be read.
- ConvertResults.OrderedWrites: a piece whose copy_range failed is written again from its start, so order is stated for pieces.
- Convert: progress output, rate limits, bitmaps, the closing zero-length compressed write.
- Rebase.Image.CopyBeforeRebase: requests are not limited to the size of the I/O buffer.
- JobTxns.JobTxn.Create: not while the jobs of the transaction are PENDING, or after one has been finalized; finalizing a transaction with such a new job fails an assertion (job.c:844).
- JobTxns.JobTxn.Wait: only safety; whether a cancelled job ever ends is up to its driver.
- Jobs: several transactions side by side, ids and the job list, references to jobs and transactions, timers, progress, `set-speed` and `change`.
- Option parsing, file names, QAPI and all opening and creating of images.
