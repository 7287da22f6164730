# Verified models of Elemental's discrete algorithms

Elemental carries the PMRRR eigensolver in `external/pmrrr`, lays processes out
on two-dimensional grids (`src/core/Grid.cpp`) and keeps distributed index maps
(`src/core/DistMap.cpp`). This project models the discrete part of that code in
Dafny and proves what it is for:

* **PMRRR.** `assign_to_proc` deals the wanted eigenvalue indices to processes,
  `init_workQ` cuts each block into singleton and cluster tasks, worker threads
  drain three queues, split clusters, exchange refined values with other
  processes and stop when a shared counter reaches zero. The numerical kernels
  only decide where the gaps between eigenvalues open, so a gap is an arbitrary
  boolean, chosen anew at every refinement. What remains is a concurrent
  protocol, and the theorems are about every run of it: conservation of work,
  safe reuse of output columns as scratch space, agreement of messages,
  termination and completion.
* **Process grids.** The diagonal walk is the Chinese remainder theorem for moduli
  that need not be coprime, computed by a loop; `CoordsToVC` is its inverse.
* **Distributed index maps.** Counting, prefix sums, packing, two all-to-all
  exchanges, lookup and unpacking together are a plain lookup in, or a plain
  inversion of, one global array.

## Layout

| file | content |
|---|---|
| Integers.dfy | maximum, minimum, uniqueness of quotient and remainder |
| Permutations.dfy | permutations as lists of their images |
| Tasks.dfy | tasks, ownership of indices, gaps and groups, queues, scratch columns |
| Subtasks.dfy | `create_subtasks` |
| InitQueue.dfy | `init_workQ` |
| Assignment.dfy | `assign_to_proc`, `cmpa`, the partition loop of `plarre` |
| Scheduler.dfy | the state machine of one process: queues, threads, counter, columns |
| SchedulerSteps.dfy | every step keeps the invariant |
| SchedulerRuns.dfy | theorems about whole runs |
| Termination.dfy | for any number of threads: only looking at waiting tasks can go on for ever |
| Lineage.dfy | where clusters come from and what becomes of them, over whole runs |
| Depths.dfy | how deep clusters get where every refinement opens a gap |
| Drain.dfy | `PMR_process_s_task`, `PMR_process_c_task` and `PMR_process_r_queue` as methods, each a run of the machine |
| Sequential.dfy | `empty_workQ` with one thread on one process, as a run of the machine |
| Plarrv.dfy | from the sorted eigenvalues to a properly started scheduler, and for one thread on one process to the computed eigenvectors |
| Messages.dfy | `communicate_refined_eigvals` |
| Peers.dfy | processes that share a cluster create the same subclusters: one split, one block |
| PeerRuns.dfy | runs of two processes side by side: same shared clusters, messages in order |
| Systems.dfy | systems of processes with their messages: agreement, matching, no deadlock |
| SystemProgress.dfy | a system whose work is not done can go on |
| Refinement.dfy | the work split of `refine_eigvals` |
| RefineBarrier.dfy | the r-queue and the barrier of `refine_eigvals` |
| BlockSort.dfy | the in-block sort of `plarre` |
| Gather.dfy | the compaction at the end of `pmrrr`, and `PMR_comm_eigvals` |
| GridRanks.dfy | greatest common divisors, grid arithmetic, `CoordsToVC` |
| Grid.dfy | the `Grid` object and `SetUpGrid` |
| Blocks.dfy | packing and the all-to-all exchange (section 5.8 of MPI 3.0) |
| DistIndexMap.dfy | `Translate` on all processes |
| InvertMap.dfy | `InvertMap`, sequential and on all processes |
| DistMaps.dfy | the `DistMap` objects; `Extend` and `InvertMap` on them |

`dafny verify dfyconfig.toml` verifies everything.

## How to read the scheduler

`Scheduler.State` is what the threads of one process share: the three queues, the
counter, what each thread is doing, the columns of Z, and (for the statements
only) how often each eigenvector has been written. `Scheduler.Next` is one step of
one thread; a run is any sequence of steps, so every interleaving is a run. Thread
0 starts with the tasks of `init_workQ` in its hands while the others are
already looking for work, as `plarrv` creates its threads before it fills the
queue. `Scheduler.Inv` says that each index the process owns is either written or
lies in exactly one task, and that the columns a cluster uses as scratch belong to
indices of that very cluster.

`Subtasks.CreateSubtasks` and `InitQueue.InitWorkQ` are loops over arrays and
queues; what they ensure (`IsSplit`, `IsInitial`) is what the machine takes as its
split step and its start. Two processes that share a cluster see each other only
through messages: `Messages` shows that what one expects is what the other
sends. `PeerRuns` puts runs of two processes side by side: what one has the other
has, sooner or later, and their messages under one tag are in the same order, as long
as they agree on the gaps of less deep clusters. `Systems` closes the circle: a process
computes gaps from what it receives, so what is received in order at one depth gives
agreement there, and that gives matching messages at the next (`SystemAgrees`). For
systems of processes, at any time, a message is received for the cluster for which it
was sent (`MessagesReachTheirCluster`), what a process waits for is sent
(`NobodyWaitsInVain`), and the processes cannot wait for one another in a circle
(`NoDeadlock`).

Termination has three parts, for any number of threads: the steps other than
looking at tasks that wait are bounded (`ProgressIsBounded`), a step of that kind is
never more than three steps away (`ProgressIsReachable`), and on one process, where
nothing waits, every run is finite and can only end with all the work done or at the
assertion against infinitely deep trees (`RunAloneIsFinite`, `StuckAloneIsDone`). Where
every refinement opens a gap that assertion never fails (`Depths`), and a system of
processes with work left can always go on with a cluster whose messages are posted
(`SystemProgress`).

A refinement is one step of this machine. `RefineBarrier` is about what happens inside
it when it is split among threads: it says for which sizes the call returns.

## Where comments and code differ

* `DistMap.cpp` raises a `LogicError` unconditionally at lines 59 and 260. The
  model is of the algorithm written after those lines.
* `process_c_task.c:311` says that `num_tasks` is more than one; it can be one
  (size 3, own part 2), and `Refinement.ChunkBounds` proves at least one.
* `process_c_task.c:324-327` prepares for empty chunks; they do not occur.
* `process_c_task.c:361` says that the barrier waits until all created tasks are
  finished. The loop after it waits `num_tasks` times for the semaphore of the one task
  that `task` denotes, which is by then whatever was taken out of the queue last, if
  anything. `RefineBarrier.SomeCallReturnsIff` and `AllCallsReturnIff` say for which
  sizes some call returns and for which every call still can. They read the code in its
  favour: each refine task has a semaphore of its own, which outlives the task
  (`core/tasks.c:103-165` and `process_r_task.c:137-140` do not establish that).
* A singleton task is closed when the next gap is small, because the next index then
  starts a cluster (`process_c_task.c:671-672`, `plarrv.c:423-424`). The test also looks
  at the gap after the last index of the cluster or block, which says nothing about a
  next one: the last index then gets a task of its own (`Subtasks.StandsAlone`).
* `cmpa` is not a proper comparison for equal values with equal local indices in
  different blocks; `Assignment.CmpaIsProperIff` says exactly when it is one.

## Model

| member | source | states |
|---|---|---|
| `Assignment.AssignToProc` | external/pmrrr/src/plarrv.c:181-263 | the loops that write iproc and Zindex in place implement the round-by-round deal: wanted place j belongs to the process whose share holds it, at its position there; what is not wanted gets -1; nz and myfirst are share and offset, also with more processes than indices |
| `Assignment.ZindexIsBijection` | external/pmrrr/src/plarrv.c:239-250 | for every process Zindex is a bijection from the indices it owns onto 0..nz-1 |
| `Assignment.SharesAreBalanced` | external/pmrrr/src/plarrv.c:230 | the shares of any two processes differ by at most one; a process with a greater number never has more |
| `Assignment.OffsetsEnd` | external/pmrrr/src/plarrv.c:246-253 | the shares add up to exactly the number of wanted indices |
| `Assignment.OwnerIsUnique` | external/pmrrr/src/plarrv.c:228-254 | no item lies in the shares of two processes |
| `Assignment.ChunkIsShare` | external/pmrrr/src/plarrv.c:230-237 | forcing a chunk of at least one and clipping its end gives every process exactly its share, none when nothing is left |
| `Assignment.PartitionEigenvalues` | external/pmrrr/src/plarre.c:271-292 | the differently clipped partition loop yields the same shares and offsets for every process as the one of assign_to_proc |
| `Assignment.CmpaIsProperIff` | external/pmrrr/src/plarrv.c:269-292 | cmpa is antisymmetric if and only if no two entries of different blocks agree in value and local index (as those of `Assignment.CmpaTieExample` do) |
| `Assignment.CmpaIsTransitive` | external/pmrrr/src/plarrv.c:269-292 | cmpa orders transitively when values do not descend along a block |
| `Assignment.OwnersAscend` | external/pmrrr/src/plarrv.c:215-259 | whatever the sort does, if it keeps each block in the order of its local indices then owners ascend along a block and unwanted indices are only at its ends; ties between blocks do not matter |
| `Assignment.SortKeepsBlocks` | external/pmrrr/src/plarrv.c:269-292 | any order in which no entry stands before one that cmpa puts strictly before it keeps the blocks |
| `Assignment.PlaceIsRank` | external/pmrrr/src/plarrv.c:269-292 | if values do not descend along a block, the sort with cmpa puts the (j+1)-th smallest value of all blocks at place j, ties counted |
| `Assignment.SmallestIsUnique` | external/pmrrr/src/plarrv.c:269-292 | only one value is the k-th smallest |
| `Assignment.WantedAreSmallest` | external/pmrrr/src/plarrv.c:217-263 | the wanted indices are those of the il-th to the iu-th smallest value: index i has rank il + offset of its owner + Zindex[i]; what is not wanted has a rank outside |
| `Assignment.TiesCannotBeSorted` | external/pmrrr/src/plarrv.c:285-290 | once two blocks tie, no order at all has every pair in the order of cmpa |
| `InitQueue.FindRun` | external/pmrrr/src/plarrv.c:335-352 | the scan for the first run finds all indices that the process owns in the block |
| `InitQueue.InitWorkQ` | external/pmrrr/src/plarrv.c:298-555 | for any gaps: the tasks inserted are in ascending order and disjoint, cover every owned index, singletons are isolated and at most max_size many, clusters are pieces of groups without gaps, with the least and greatest owner as partners; each is pushed once to the queue that its partners decide; every cluster is cut out of a maximal group at large gaps of the absolute criterion and nowhere else; two singleton tasks of a block are adjacent only if the first is full, or the second is the last index of the block alone and Wgap there is small, in which case it always is alone |
| `InitQueue.SplitBlock` | external/pmrrr/src/plarrv.c:384-545 | the same for one block, whatever task_inserted and the running singleton are left as by a skip |
| `InitQueue.EmitPieces` | external/pmrrr/src/plarrv.c:446-540 | the loop of the absolute criterion inserts, for all owned indices of the group, clusters that end at its large gaps, and nothing else |
| `InitQueue.PiecesHaveTwo` | external/pmrrr/src/plarrv.c:451-503 | every piece has at least two members, and a group of at most three is not cut |
| `InitQueue.PieceIffLargeGaps` | external/pmrrr/src/plarrv.c:453-459 | what starts a group, or comes right after a piece, is a piece if and only if it has two members or more and ends at the first large gap after its second member that is at least two before the end of the group, or at the end of the group |
| `InitQueue.MaxSizeAtStartIsQuota` | external/pmrrr/src/plarrv.c:384 | singleton tasks have at most m members, the greatest m with m * nthreads <= nz, or one |
| `InitQueue.PiecesTile` | external/pmrrr/src/plarrv.c:453-502 | every index of a group lies in exactly one piece |
| `Plarrv.Start` | external/pmrrr/src/plarrv.c:90-118 | from eigenvalues in any order that keeps the blocks, assign_to_proc and init_workQ establish a proper initial state of the scheduler |
| `Plarrv.AssignmentIsValid` | external/pmrrr/src/plarrv.c:218-250 | what assign_to_proc leaves is consistent: nz is the number of owned indices and their columns are distinct and in range |
| `Subtasks.CreateSubtasks` | external/pmrrr/src/process_c_task.c:598-800 | for any gaps and any value read from the counter: the subtasks are in ascending order, disjoint and inside the cluster, every owned index lies in one; singletons are isolated and at most max_size; clusters are maximal groups without a gap; they are pushed to their queues in order and the parent representations, and nothing else, are stored in Z; the parent is in columns of Z if and only if the process owns two indices of the new cluster or more; two singleton tasks are adjacent only if the first is full, or the second is the last index of the cluster alone and Wgap there is small, in which case it always is alone |
| `Subtasks.OwnerSpan` | external/pmrrr/src/process_c_task.c:711-718 | the loop finds the least and the greatest owner |
| `Subtasks.BetweenOwnersIsInvolved` | external/pmrrr/src/process_c_task.c:719-723 | a process whose number lies between the outermost owners owns an index, so the test of the code is exact |
| `Subtasks.ScratchIsOwned` | external/pmrrr/src/process_c_task.c:732-771 | the two scratch columns belong to two distinct members of the new cluster that the process owns |
| `Subtasks.ParentIffOwned` | external/pmrrr/src/process_c_task.c:732-771 | the parent of a new cluster is kept in columns of Z if and only if the process owns at least two of its indices, and in a private copy if it owns exactly one |
| `Subtasks.MaxSizeIsQuota` | external/pmrrr/src/process_c_task.c:641-642 | singleton tasks have at most m members, the greatest m with m * min(depth + 1, 4) * nthreads <= num_left, or one |
| `Tasks.PushAllGrows` | external/pmrrr/src/process_c_task.c:780-783 | new tasks are put behind those already in the queues, each into one of them |
| `Tasks.GroupMembersAreNotIsolated` | external/pmrrr/src/process_c_task.c:656-708 | no member of a group of two or more is isolated, so clusters and singleton tasks never compete for an index |
| `Tasks.GroupsAreEqualOrDisjoint` | external/pmrrr/src/process_c_task.c:645-654 | two maximal groups that share an index are the same |
| `SchedulerSteps.StepKeepsInv` | external/pmrrr/src/plarrv.c:585-611 | every step of every thread keeps the invariant: conservation of indices, counter equals unwritten plus computed-but-not-counted, scratch intact, finished columns intact |
| `SchedulerSteps.InitKeepsInv` | external/pmrrr/src/plarrv.c:95-118 | the invariant holds at the start, with threads already running and queues empty |
| `SchedulerSteps.EmitKeepsInv` | external/pmrrr/src/process_c_task.c:762-785 | storing a parent in two columns and pushing the task disturbs no other stored parent and no finished vector |
| `SchedulerSteps.SplitKeepsInv` | external/pmrrr/src/process_c_task.c:643-790 | replacing a cluster by its subtasks conserves every owned index |
| `SchedulerSteps.WriteKeepsOthers` | external/pmrrr/src/process_s_task.c:169-171 | writing an eigenvector leaves every parent stored for another task intact |
| `SchedulerRuns.RunKeepsInv` | external/pmrrr/src/plarrv.c:585-611 | the invariant holds in every state of every run |
| `SchedulerRuns.ZeroMeansDone` | external/pmrrr/src/plarrv.c:585-611 | when the counter is zero, in any interleaving, each owned eigenvector has been computed exactly once and is in its column, no task is left anywhere, and the counter is never negative |
| `SchedulerRuns.ParentIsIntact` | external/pmrrr/src/process_c_task.c:762-772 | a thread about to compute a representation finds the parent stored for this very cluster, in two distinct columns |
| `SchedulerRuns.WritersAreApart` | external/pmrrr/src/process_c_task.c:732-771 | no two threads may ever write the same column, and none may write a column of a queued task, of a cluster being read, or of a finished vector |
| `SchedulerRuns.QueuedTasksAreApart` | external/pmrrr/src/process_c_task.c:732-785 | no two live clusters, and no cluster and singleton task, share an index, hence none shares scratch |
| `SchedulerRuns.OnlyThreadZeroCommunicates` | external/pmrrr/src/process_r_task.c:72-86 | with the funneled thread level of section 12.4 of MPI 3.0, only thread 0 ever works on a cluster with partners |
| `SchedulerRuns.StepCost` | external/pmrrr/src/process_c_task.c:93-142 | the sum of size times n - depth + 1 over live tasks falls with each completed task and stays the same in every other step, incomplete communication included |
| `SchedulerRuns.FewCompletions` | external/pmrrr/src/process_c_task.c:93-142 | no run completes more than n*n tasks |
| `Termination.StepLowersPotential` | external/pmrrr/src/plarrv.c:585-611 | every step of every thread lowers the potential (about 5 * size * (n + 2 - depth) for a task), except turning the r-queue over, taking a waiting cluster and putting it back, which leave it as it is |
| `Termination.ProgressIsBounded` | external/pmrrr/src/plarrv.c:585-611 | in any run of any number of threads the steps other than those looks are at most 5n(n+1) + 3n + 1 + threads |
| `Termination.ProgressIsReachable` | external/pmrrr/src/plarrv.c:585-611 | while the counter is positive no thread has left, and within three steps some thread makes progress, if no cluster is n deep and the messages of the cluster it then holds have arrived |
| `Termination.RunAloneIsFinite` | external/pmrrr/src/plarrv.c:585-611 | on one process every run, with any number of threads, is finite, with that bound |
| `Termination.StuckAloneIsDone` | external/pmrrr/src/plarrv.c:585-611 | on one process a run that cannot go on has computed every vector or stands at the assertion with a cluster at least n deep |
| `Depths.DepthIsBounded` | external/pmrrr/src/process_c_task.c:93-94 | if every split finds a gap inside its cluster then in every state of every run, with any number of threads and processes, size and depth of a cluster add up to at most n + 1 |
| `Depths.NoneIsTooDeep` | external/pmrrr/src/process_c_task.c:93-94 | so the assertion against infinitely deep trees holds whenever a cluster is taken |
| `Depths.OpeningRunIsDone` | external/pmrrr/src/plarrv.c:585-611 | and on one process, with any number of threads, such a run can only end with every vector computed |
| `SchedulerRuns.InitialTasksStart` | external/pmrrr/src/plarrv.c:384-545 | what init_workQ ensures is what the scheduler's start demands |
| `Drain.ProcessSTask` | external/pmrrr/src/process_s_task.c:104-307 | the loop writes exactly the columns of the owned indices, each with its vector, leaves the rest, counts them right, and is a run of the scheduler that ends with the counter lowered by that count |
| `Drain.ProcessCTask` | external/pmrrr/src/process_c_task.c:81-142 | a cluster just taken is split if it is of one process or its messages have arrived, else it is to wait; either way this is a run of the thread that holds it, Renew and Split and EmitNext steps or Renew and Requeue |
| `Drain.ProcessRQueue` | external/pmrrr/src/process_r_task.c:65-94 | while no other thread runs: the loop handles exactly the tasks that were in the queue at the call, each once, in order; each is split as create_subtasks splits it if its messages have arrived, waits if not, or is put back by a thread that may not process it; the whole is a run of the machine from the given state to the resulting queues and columns |
| `Drain.RestIsInFront` | external/pmrrr/src/process_r_task.c:69-94 | what the loop has not reached is at the front of the queue in its old order |
| `Drain.TurnOverKeepsOrder` | external/pmrrr/src/process_r_task.c:72-86 | a thread that may not process clusters leaves the queue exactly as it was; if no communication is complete every task keeps its place |
| `Sequential.EmptyWorkQ` | external/pmrrr/src/plarrv.c:585-611 | with one thread on one process the drain loop terminates for any outcome of the refinements, with every owned vector in its column and empty queues, or stops at the assertion with a cluster at least n deep; if every refinement opens at least one gap inside its cluster, it never does |
| `Sequential.SplitOne` | external/pmrrr/src/process_c_task.c:81-142 | taking and splitting one cluster is a run of the scheduler that completes a task, and pushes only parts of the cluster without a gap inside, one level deeper |
| `Plarrv.ComputeAlone` | external/pmrrr/src/plarrv.c:137-174 | assign_to_proc, init_workQ and empty_workQ together: column k of Z is the eigenvector of the k-th wanted eigenvalue in the order of the sort, for any sort that keeps the blocks; if values do not descend along a block, that of the (il + k)-th smallest eigenvalue |
| `Plarrv.EveryRunComputes` | external/pmrrr/src/plarrv.c:137-174 | on every process, with any number of threads and in any interleaving: when the counter is zero, column k of Z is the eigenvector number offset + k of the wanted ones in the order of the sort |
| `Plarrv.EveryRunComputesSmallest` | external/pmrrr/src/plarrv.c:137-174 | and if values do not descend along a block, column k is a vector of the (il + offset + k)-th smallest eigenvalue of all blocks |
| `Messages.RefineBounds` | external/pmrrr/src/process_c_task.c:116-123 | the bounds handed to the refinement are the interval that the process later sends |
| `Messages.OtherRange` | external/pmrrr/src/process_c_task.c:475-505 | begin, size and tag that a process computes for receiving from another are those the other uses for sending |
| `Messages.EveryIndexIsSent` | external/pmrrr/src/process_c_task.c:434-438 | every index of the cluster lies in the interval of some process involved, its owner if it is wanted, else the first or the last process involved |
| `Messages.NoIndexIsSentTwice` | external/pmrrr/src/process_c_task.c:434-438 | and in that of only one |
| `Messages.Receive` | external/pmrrr/src/process_c_task.c:454-516 | after all receptions each index of the cluster holds the value of the process that refined it, and nothing outside the cluster has changed |
| `Messages.ReplicasAgree` | external/pmrrr/src/process_c_task.c:523-534 | after the exchange all processes hold the same values |
| `Messages.TagsAreApart` | external/pmrrr/src/process_c_task.c:469-512 | a process uses different tags for disjoint clusters |
| `Peers.PeersCreateSameRoot` | external/pmrrr/src/plarrv.c:446-540 | an initial cluster of one process is an initial cluster, with the same partners, of every process that owns an index of it |
| `Peers.PeersCreateSameCluster` | external/pmrrr/src/process_c_task.c:707-785 | the same for the subclusters of a shared cluster |
| `Peers.ExchangeKeepsPeersInStep` | external/pmrrr/src/process_c_task.c:568-594 | after an exchange two processes find the same gaps and so create the same shared subclusters |
| `Lineage.HasOrigin` | external/pmrrr/src/process_c_task.c:643-790 | a cluster that a step leaves behind was there before, the same but for its representation and flag, or the step is the split that creates it |
| `Lineage.HasContinuation` | external/pmrrr/src/process_c_task.c:81-142 | only its own split makes a cluster disappear |
| `Lineage.RenewalsDescend` | external/pmrrr/src/process_c_task.c:93-142 | of two clusters that share an index, the one refined first is less deep |
| `PeerRuns.PeerHasSame` | external/pmrrr/src/process_c_task.c:707-785 | by induction on the depth, for clusters at most d deep and processes that agree on the gaps of less deep ones: whenever a process has a cluster in which another owns an index, the other has split the same cluster, or still has it or a less deep one that contains it |
| `PeerRuns.PostedDescends` | external/pmrrr/src/process_c_task.c:469-512 | messages of a process with the same tag are posted in the order of depth |
| `PeerRuns.MessagesMatch` | external/pmrrr/src/process_c_task.c:467-513 | at any time, for two processes that agree on the gaps of clusters less than d deep: if both have posted an x-th message under a tag, one of them for a cluster at most d deep, the two are for the same cluster, nested clusters with equal tags (`Messages.NestedTagsExample`) included |
| `Systems.SystemAgrees` | external/pmrrr/src/process_c_task.c:523-534 | processes that compute the gaps of shared clusters from their own values and the messages they receive, the x-th sent under a tag being the x-th received (section 3.5 of MPI 3.0), agree on the gaps of all shared clusters: matching at one depth gives agreement at that depth, and so matching at the next |
| `Systems.MessagesReachTheirCluster` | external/pmrrr/src/process_c_task.c:454-516 | at any time: a value that a process takes for an index of a cluster was refined for this very cluster, by the process whose part the index is in, in the only step in which that process posts it |
| `Systems.MessagesMatchInOrder` | external/pmrrr/src/process_c_task.c:467-513 | at any time the x-th messages that two processes have posted for each other under a tag are for the same cluster |
| `Systems.FinishedPostSame` | external/pmrrr/src/process_c_task.c:467-513 | two processes that are finished have posted messages for the same clusters to each other in the same order, under every tag |
| `Systems.NobodyWaitsInVain` | external/pmrrr/src/process_c_task.c:454-516 | if a process ever has a shared cluster, every other process involved has refined it and posted its messages by the time its counter is zero |
| `Systems.NoDeadlock` | external/pmrrr/src/process_c_task.c:129-141 | if all processes do nothing but wait for messages, then for some cluster that is waited for every process involved has posted its messages |
| `SystemProgress.SystemProgresses` | external/pmrrr/src/plarrv.c:585-611 | as long as some counter is positive and no cluster is n deep, some process gets to a step of progress by looking at waiting tasks only, and if that step splits a shared cluster then every process involved has posted its messages |
| `SystemProgress.OpeningSystemProgresses` | external/pmrrr/src/plarrv.c:585-611 | the same for all systems in which every split finds a gap inside its cluster |
| `Refinement.ChunkBounds` | external/pmrrr/src/process_c_task.c:309-312 | chunks are never empty and at most own_part long, and what remains is at least own_part and less than own_part plus num_tasks |
| `Refinement.OwnPartIsLeast` | external/pmrrr/src/process_c_task.c:299-304 | own_part is the least o of two or more with left <= o * nthreads and nz < (o + 1) * 4 * nthreads |
| `Refinement.SplitRefinement` | external/pmrrr/src/process_c_task.c:299-344 | tasks and own remainder tile rf_begin..rf_end and their local indices p, q are those of their intervals; the number of tasks t is the one with t * own_part < rf_size <= (t + 1) * own_part |
| `RefineBarrier.WaitingIsServed` | external/pmrrr/src/process_c_task.c:346-366 | a thread waiting at the barrier has no task left in the queue, and what is not computed is in the hands of a thread that does not wait, in any interleaving |
| `RefineBarrier.SeveralTasksNeverReturn` | external/pmrrr/src/process_c_task.c:361-366 | the waits are all for the semaphore of one task, which is posted at most once, by anybody: in no interleaving does a call that has created more than one task leave the barrier |
| `RefineBarrier.SomeCallReturnsIff` | external/pmrrr/src/process_c_task.c:299-366 | some call with the given size, counter, nz and number of threads returns in some run, if and only if rf_size <= 2 * own_part |
| `RefineBarrier.AllCallsReturnIff` | external/pmrrr/src/process_c_task.c:299-366 | every call can still return from every state that the threads may have brought about, if and only if rf_size <= own_part, or there is one thread and rf_size <= 2 * own_part |
| `RefineBarrier.EightOnFourThreads` | external/pmrrr/src/process_c_task.c:299-366 | an input for which it fails: one cluster of eight, counter and nz eight, four threads; there are three tasks and no call ever returns |
| `BlockSort.SortBlock` | external/pmrrr/src/plarre.c:334-349 | the sort terminates with W ascending; W and Werr are rearranged by one and the same stable permutation, nothing outside the block changes |
| `BlockSort.SwapRemovesInversion` | external/pmrrr/src/plarre.c:339-347 | each swap removes exactly one inversion |
| `Gather.CompactAndSort` | external/pmrrr/src/pmrrr.c:341-364 | the in-place compaction and the sort put the value of every owned index at the place its Zindex names |
| `Gather.SortedEntriesAreNumbered` | external/pmrrr/src/pmrrr.c:353-364 | sorting by Zindex puts number k at place k |
| `Gather.CommEigvals` | external/pmrrr/src/pmrrr.c:646-673 | counts and displacements tile the result: each process's values land in its segment and none overwrites another's |
| `Gather.GatheredInOrder` | external/pmrrr/src/pmrrr.c:341-364 | place k of the result holds the final value of the k-th wanted index in assign_to_proc's order |
| `Gather.CompactAndGather` | external/pmrrr/src/pmrrr.c:341-364 | the end of pmrrr on every process and then PMR_comm_eigvals: place k holds the value of the k-th wanted index as its owner computed it, and nothing after the last is touched |
| `GridRanks.DefaultHeight` | src/core/Grid.cpp:58-64 | the loop ends with the least divisor of the size that is at least the square root |
| `GridRanks.MostNearlySquare` | src/core/Grid.cpp:58-64 | no divisor of the size lies strictly between height and width |
| `GridRanks.VCAndVRAreInverse` | src/core/Grid.cpp:321-337 | VCToVR and VRToVC undo each other on 0..size-1 and stay in that range |
| `Divisibility.Bezout` | src/core/Grid.cpp:103-104 | Euclid's gcd divides both numbers and is a combination of them |
| `Divisibility.GcdIsGreatest` | src/core/Grid.cpp:103-104 | every common divisor is at most the gcd |
| `GridRanks.WalkFindsPosition` | src/core/Grid.cpp:161-178 | every position is on the diagonal that mdPerpRank names, at one of the first lcm places |
| `GridRanks.PositionIsUnique` | src/core/Grid.cpp:161-178 | and on no other diagonal and at no other place |
| `GridRanks.DiagonalWalk` | src/core/Grid.cpp:161-179 | the walk finds the process within lcm steps; the result is the pair that the MD case of CoordsToVC maps to it |
| `GridRanks.GatherDiagonals` | src/core/Grid.cpp:161-182 | diagsAndRanks holds, for every VC rank, the coordinates that CoordsToVC maps to that rank |
| `GridRanks.CoordsToVCIsBijection` | src/core/Grid.cpp:339-388 | for every supported pair of distributions CoordsToVC maps the product of the rank ranges one-to-one onto 0..size-1; CoordsOf is its inverse |
| `ProcessGrid.Grid.constructor` | src/core/Grid.cpp:74-93 | without a given height the grid is as nearly square as its size allows |
| `ProcessGrid.Grid.SetUpGrid` | src/core/Grid.cpp:95-182 | it succeeds if and only if the height divides the size, and then all rank fields and the table fit together; in column-major order the VC rank is the process's own rank, otherwise the VR rank is |
| `ProcessGrid.Grid.DiagsInvertMD` | src/core/Grid.cpp:397-431 | Diag and DiagRank of a VC rank are mapped back to it by CoordsToVC, and a process finds its own mdPerpRank and mdRank there |
| `ProcessGrid.Grid.RanksAgree` | src/core/Grid.cpp:142-143 | VCToVR and VRToVC map the process's two ranks to each other |
| `ProcessGrid.Grid.CoordsToVCFindsRank` | src/core/Grid.cpp:339-388 | in every supported pair of distributions CoordsToVC maps a process's own ranks (in MC, MR, VC, VR, MD and the communicators across) to its VC rank |
| `ProcessGrid.NextProcess` | src/core/Grid.cpp:117-143 | in column-major order the process with the next rank is one row down, or on top of the next column; in row-major order one column to the right, or at the start of the next row |
| `Blocks.Count` | src/core/DistMap.cpp:61-69 | the loop counts what goes to each process |
| `Blocks.Scan` | include/El/core/environment/impl.hpp:252-262 | offsets are exclusive prefix sums and the total is their end |
| `Blocks.Pack` | src/core/DistMap.cpp:82-90 | the loop with advancing offsets lays the requests out process by process, in their order |
| `Blocks.PackedAt` | src/core/DistMap.cpp:119-127 | the same advancing offset finds item s again |
| `Blocks.ExchangeTransposes` | src/core/DistMap.cpp:92-97 | the all-to-all exchange of packed blocks is their transpose |
| `DistIndexMap.PiecesTile` | src/core/DistMap.cpp:147-160 | the local parts tile 0..numSources-1 |
| `DistIndexMap.BlocksizeIsLeast` | src/core/DistMap.cpp:153-155 | the block size is the least positive one with which all sources find a place |
| `DistIndexMap.PartsAreEven` | src/core/DistMap.cpp:157-159 | no process holds more than numSources divided by the number of processes, rounded up |
| `DistIndexMap.SourceIsLocal` | src/core/DistMap.cpp:99-111 | source i lives on process i / blocksize at i - blocksize * rank, in bounds |
| `DistIndexMap.Fulfill` | src/core/DistMap.cpp:99-111 | in place, every request is replaced by its image; no lookup is out of bounds |
| `DistIndexMap.Unpack` | src/core/DistMap.cpp:119-127 | in place, every source is replaced by its reply |
| `DistIndexMap.RepliesAreImages` | src/core/DistMap.cpp:113-117 | what comes back to a process are the images of its requests in the order in which it packed them |
| `DistIndexMap.Translate` | src/core/DistMap.cpp:51-128 | on every process each index below numSources is replaced by the entry of the concatenated global map, and every other index stays, for any number of processes and any lists |
| `InvertMap.InvertMap` | src/core/DistMap.cpp:240-247 | the sequential inversion of a permutation is its inverse |
| `InvertMap.InverseIsUnique` | src/core/DistMap.cpp:240-247 | a permutation has only one inverse, so the two ways of inverting agree |
| `InvertMap.PairCount` | src/core/DistMap.cpp:279-286 | a process receives as many pairs as it has sources |
| `InvertMap.FormInverse` | src/core/DistMap.cpp:306-315 | every pair received is written in bounds and none is overwritten by another |
| `InvertMap.InvertAll` | src/core/DistMap.cpp:249-316 | for a permutation the local parts together are its inverse, and each process receives exactly two integers for each of its sources |
| `InvertMap.TranslatedMapIsIdentity` | src/core/DistMap.cpp:249-316 | translating a map through its inverse gives the identity |
| `DistMaps.DistMap.Resize` | src/core/DistMap.cpp:215-229 | blocksize and local size follow the new number of sources, at most its share rounded up; old entries are kept and new ones are zero |
| `DistMaps.PartsAreDistributed` | src/core/DistMap.cpp:147-160 | objects set up by the constructor or Resize on all processes hold one distributed map |
| `DistMaps.Extend` | src/core/DistMap.cpp:130-136 | in place, the first map becomes its composition with this one, also when both are the same object |
| `DistMaps.InvertDistMap` | src/core/DistMap.cpp:249-316 | the inverse objects, resized and filled, hold the inverse of the map |
| `DistMaps.InvertThenExtend` | src/core/DistMap.cpp:130-136 | inverting a map and extending it by the result leaves the identity |

## Left out

- Floating point: the kernels, tolerances and gap formulas. A gap is an arbitrary boolean; eigenvalues are reals in the sort and in cmpa, so there is no NaN and no rounding.
- The library's qsort: it is modelled by the permutation it applies, a parameter of which only sortedness is used.
- Queues, the counter and the semaphores: each operation is one atomic step, as their locks intend. How the semaphore of a refine task is allocated and freed is not modelled.
- Drain.ProcessRQueue: while it runs no other thread does; interleaved with others its steps are those of the machine.
- Sequential.EmptyWorkQ: the loop as a method is for one thread on one process; for any number of threads and processes its steps are those of the machine, and `Termination` says when they end.
- Termination.ProgressIsReachable: when messages arrive is up to MPI, so a cluster that waits is taken to be able to go on when it is looked at; `SystemProgress.SystemProgresses` is about one whose messages are posted. The refinement of a cluster is one step that returns, which `RefineBarrier.AllCallsReturnIff` shows for refinements that are not split among threads.
- Termination.RunAloneIsFinite: the refinement of a cluster is one step that returns, which `RefineBarrier.AllCallsReturnIff` shows for refinements that are not split among threads.
- Termination.StuckAloneIsDone: the same; a thread that is held up inside a refinement is not a state of the machine.
- Depths.OpeningRunIsDone: the same.
- SystemProgress.SystemProgresses: the same; and messages that are posted are taken to arrive.
- Plarrv.ComputeAlone: the whole of plarrv as a method is for one thread on one process; `Plarrv.EveryRunComputes` is for any number of threads and processes.
- Systems.SystemAgrees: the values are what each process holds when it has refined its part; that no thread changes them before the cluster is split is not modelled. The two messages of a pair, Wshifted and Werr, are one value.
- Messages.TagsAreApart: nested clusters can have the same tag; `PeerRuns.MessagesMatch` is about those.
- Storing a parent representation and pushing the task that uses it are one step of the machine.
- The life time of representations (their reference counts), which are not part of this model.
- MPI transport: an exchange is taken to deliver what was sent under the tag and size agreed (sections 3.7 and 5.8 of MPI 3.0); when it completes is left open. Communicators and thread creation are not modelled.
- `Zindex[my_first + 1]` is also read when the parent is copied and the value is not used; that read is not modelled.
- The test of `new_first` inside the singleton branch of `init_workQ` repeats the test before it and is left out.
- The r-queue of `Drain.ProcessRQueue` holds clusters only; refine tasks in it are the subject of `RefineBarrier`.
- `DistIndexMap.Translate`: negative indices, which the code would look up outside its arrays, are excluded. The overload with given owners is modelled with the owners that the other one computes.
- `InvertMap`: the two integers of a pair are one element of the buffers; maps are permutations, as an inverse needs.
- The accessors of `DistMap` (`GetLocal`, `SetLocal`, `Empty`, `FirstLocalSource` and the like), which `Translate` and `InvertMap` do not need as methods.
- `DistMap::operator=` and the two-argument `Extend` built on it, which keep an old block size.
- `GridRanks.FloorSqrt` stands for the conversion of a floating-point square root, which is exact for every size that a C `int` holds.
- `El::GCD` is not part of this model; Euclid's algorithm stands for it. A height of zero, which only the constructor for viewers lets through, and processes outside the grid are left out, as are communicators and BLACS handles.
- Integers are unbounded; overflow of a C `int` is not modelled.
- `handle_small_cases`, the eigenvalue-only path of `plarre` and the wrapper and input/output code of the rest of the repository: thin layers over library calls.
