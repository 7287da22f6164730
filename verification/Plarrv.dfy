// plarrv.c from assignment to a running scheduler: what assign_to_proc and
// init_workQ establish is what the scheduler needs to start.
module Plarrv {
  import Assignment
  import InitQueue
  import opened Permutations
  import opened Scheduler
  import SchedulerRuns
  import Sequential
  import opened Tasks

  // The indices that process id owns and that zindex numbers below k.
  ghost function NumberedBelow(iproc: seq<int>, zindex: seq<int>, id: int, k: int): set<int>
    requires |iproc| == |zindex|
  {
    set i | 0 <= i < |iproc| && iproc[i] == id && zindex[i] < k
  }

  // zindex gives different numbers to the indices of process id.
  ghost predicate AreApart(iproc: seq<int>, zindex: seq<int>, id: int)
    requires |iproc| == |zindex|
  {
    && (forall i :: 0 <= i < |iproc| && iproc[i] == id ==> 0 <= zindex[i])
    && (forall i, j :: 0 <= i < j < |iproc| && iproc[i] == id == iproc[j] ==> zindex[i] != zindex[j])
  }

  lemma NumberedNext(iproc: seq<int>, zindex: seq<int>, id: int, k: nat, i: nat)
    requires |iproc| == |zindex| && AreApart(iproc, zindex, id) && i < |iproc| && iproc[i] == id && zindex[i] == k
    ensures NumberedBelow(iproc, zindex, id, k + 1) == NumberedBelow(iproc, zindex, id, k) + {i as int}
  {
    forall j | 0 <= j < |iproc| && iproc[j] == id && zindex[j] == k ensures j == i {
      assert j < i || i < j || i == j;
    }
  }

  lemma {:induction false} NumberedCount(iproc: seq<int>, zindex: seq<int>, id: int, nz: nat, k: nat)
    requires |iproc| == |zindex| && k <= nz && AreApart(iproc, zindex, id)
    requires forall l :: 0 <= l < nz ==> Assignment.HasZ(iproc, zindex, id, l)
    ensures |NumberedBelow(iproc, zindex, id, k)| == k
    decreases k
  {
    if k > 0 {
      NumberedCount(iproc, zindex, id, nz, k - 1);
      assert Assignment.HasZ(iproc, zindex, id, k - 1);
      var i :| 0 <= i < |iproc| && iproc[i] == id && zindex[i] == k - 1;
      NumberedNext(iproc, zindex, id, k - 1, i);
      assert i !in NumberedBelow(iproc, zindex, id, k - 1);
    } else {
      assert NumberedBelow(iproc, zindex, id, 0) == {};
    }
  }

  // What assign_to_proc leaves behind is a valid context for the scheduler.
  lemma AssignmentIsValid(order: seq<nat>, il: nat, iu: nat, ctx: Context)
    requires 0 <= ctx.pid < ctx.nproc && 0 < ctx.nthreads && ctx.n == |ctx.iproc| == |ctx.zindex|
    requires 1 <= il <= iu + 1 && iu <= |order|
    requires IsPermutation(order, ctx.n)
    requires Assignment.IsAssigned(order, il, iu, ctx.nproc, ctx.iproc, ctx.zindex)
    requires ctx.nz == Assignment.Share(iu - il + 1, ctx.nproc, ctx.pid)
    ensures Valid(ctx)
  {
    Assignment.ZindexIsBijection(order, il, iu, ctx.nproc, ctx.iproc, ctx.zindex, ctx.pid);
    forall i | 0 <= i < ctx.n ensures -1 <= ctx.iproc[i] < ctx.nproc {
      var j := PlaceOf(order, i);
      assert Assignment.AssignedAt(order, il, iu, ctx.nproc, ctx.iproc, ctx.zindex, j);
    }
    NumberedCount(ctx.iproc, ctx.zindex, ctx.pid, ctx.nz, ctx.nz);
    assert OwnedSet(ctx) == NumberedBelow(ctx.iproc, ctx.zindex, ctx.pid, ctx.nz);
  }

  // The state in which plarrv leaves init_workQ to be interleaved with the
  // threads it has already created.
  function StartState(ctx: Context, ts: seq<Task>, threads: nat, z: seq<Column>): State
    requires 0 < threads
  {
    State(Queues([], [], []),
          seq(threads, w => if w == 0 then Worker(Emitting(ts), []) else Worker(Idle, [])),
          z, ctx.nz, seq(ctx.n, i => 0))
  }

  // Eigenvalues in, in any order that keeps the blocks, and a properly started
  // scheduler out, on every process.
  method Start(entries: seq<Assignment.Entry>, order: seq<nat>, isplit: seq<nat>, gap: seq<bool>, absGap: seq<bool>,
               pid: nat, nproc: nat, nthreads: nat, funneled: bool, il: nat, iu: nat)
    returns (ctx: Context, ts: seq<Task>, wq: WorkQueue)
    requires pid < nproc && 0 < nthreads && 1 <= il <= iu + 1 && iu <= |entries|
    requires IsPermutation(order, |entries|) && Assignment.KeepsBlocks(entries, order)
    requires |gap| == |absGap| == |entries| && InQueueBlocks(entries, isplit)
    ensures Valid(ctx) && ctx.n == |entries| && ctx.pid == pid && ctx.nproc == nproc && ctx.nthreads == nthreads
    ensures ctx.nz == Assignment.Share(iu - il + 1, nproc, pid)
    ensures Assignment.IsAssigned(order, il, iu, nproc, ctx.iproc, ctx.zindex)
    ensures forall z: seq<Column> :: |z| == ctx.nz ==> Init(ctx, StartState(ctx, ts, nthreads, z))
    ensures fresh(wq) && wq.View() == PushAll(Queues([], [], []), ts)
  {
    var n := |entries|;
    var iproc, zindex := new int[n], new int[n];
    var myFirst, nz := Assignment.AssignToProc(order, pid, nproc, il, iu, iproc, zindex);
    ctx := Context(n, pid, nproc, nthreads, funneled, iproc[..], zindex[..], nz);
    AssignmentIsValid(order, il, iu, ctx);
    forall j | 0 <= j < |isplit|
      ensures InitQueue.AtMost(isplit, j, n) && Ascending(ctx.iproc, InitQueue.BlockAt(isplit, j))
    {
      InitQueue.SplittingIsBounded(isplit, n, j);
      assert BlockOk(entries, isplit, j);
      Assignment.OwnersAscend(entries, order, InitQueue.BlockAt(isplit, j), il, iu, nproc, ctx.iproc, ctx.zindex);
    }
    wq := new WorkQueue();
    ts := InitQueue.InitWorkQ(ctx, isplit, gap, absGap, wq);
    SchedulerRuns.InitialTasksStart(ctx, isplit, gap, absGap, InitQueue.MaxSizeAtStart(ctx), ts);
  }

  // The blocks that plarre found cover all eigenvalues, each in ascending order.
  ghost predicate InQueueBlocks(entries: seq<Assignment.Entry>, isplit: seq<nat>) {
    InitQueue.IsSplitting(isplit, |entries|) && forall j :: 0 <= j < |isplit| ==> BlockOk(entries, isplit, j)
  }

  ghost predicate BlockOk(entries: seq<Assignment.Entry>, isplit: seq<nat>, j: nat)
    requires j < |isplit|
  {
    0 < isplit[j] && Assignment.IsBlock(entries, InitQueue.BlockAt(isplit, j))
  }

  // The tasks of init_workQ store nothing in Z.
  lemma {:induction false} RootsStoreNothing(ctx: Context, z: seq<Column>, ts: seq<Task>)
    requires forall t :: t in ts ==> IsRoot(ctx, t)
    ensures (forall t :: t in ts ==> Fits(t, |z|)) && StoreAll(z, ts) == z
  {
    if ts == [] {
    } else {
      RootsStoreNothing(ctx, z, ts[..|ts|-1]);
      assert ts[|ts|-1] in ts;
    }
  }

  // With the vectors of the owned indices in their columns, the columns of process
  // ctx.pid are, in order, its share of the wanted eigenvectors.
  lemma ColumnsAreWanted(order: seq<nat>, il: nat, iu: nat, ctx: Context, z: seq<Column>)
    requires Valid(ctx) && 0 <= ctx.pid < ctx.nproc && |z| == ctx.nz && 1 <= il <= iu + 1 && iu <= |order|
    requires Assignment.IsAssigned(order, il, iu, ctx.nproc, ctx.iproc, ctx.zindex)
    requires ctx.nz == Assignment.Share(iu - il + 1, ctx.nproc, ctx.pid)
    requires forall i :: 0 <= i < ctx.n && Owns(ctx, i) ==> z[ctx.zindex[i]] == Vector(i)
    ensures HoldsShare(order, il, iu, ctx.nproc, ctx.pid, z)
  {
    forall k: nat | k < |z|
      ensures IsWanted(order, il - 1 + Assignment.Offset(iu - il + 1, ctx.nproc, ctx.pid) + k, z[k])
    {
      var j := ShareIsOwned(order, il, iu, ctx, k);
    }
  }

  // Number k of its share is a wanted index that process ctx.pid owns, with column k.
  lemma ShareIsOwned(order: seq<nat>, il: nat, iu: nat, ctx: Context, k: nat) returns (j: nat)
    requires 0 <= ctx.pid < ctx.nproc && 1 <= il <= iu + 1 && iu <= |order|
    requires Assignment.IsAssigned(order, il, iu, ctx.nproc, ctx.iproc, ctx.zindex)
    requires k < Assignment.Share(iu - il + 1, ctx.nproc, ctx.pid)
    ensures j == il - 1 + Assignment.Offset(iu - il + 1, ctx.nproc, ctx.pid) + k < |order|
    ensures order[j] < |ctx.iproc| && order[j] < |ctx.zindex|
    ensures ctx.iproc[order[j]] == ctx.pid && ctx.zindex[order[j]] == k
  {
    var m, p, id := iu - il + 1, ctx.nproc, ctx.pid;
    var t := Assignment.Offset(m, p, id) + k;
    j := il - 1 + t;
    Assignment.OffsetsEnd(m, p);
    Assignment.OffsetsAscend(m, p, id + 1, p);
    Assignment.OwnerIsUnique(m, p, t, id, Assignment.OwnerFrom(m, p, t, 0));
    assert Assignment.AssignedAt(order, il, iu, p, ctx.iproc, ctx.zindex, j);
  }

  predicate IsWanted(order: seq<nat>, j: int, column: Column) {
    0 <= j < |order| && column == Vector(order[j])
  }

  // The columns of z are the eigenvectors number il - 1 + offset, and so on, in the
  // order of the sort.
  ghost predicate HoldsShare(order: seq<nat>, il: nat, iu: nat, nproc: nat, pid: nat, z: seq<Column>)
    requires 0 < nproc && 1 <= il <= iu + 1
  {
    forall k: nat :: k < |z| ==> IsWanted(order, il - 1 + Assignment.Offset(iu - il + 1, nproc, pid) + k, z[k])
  }

  // plarrv on any process, with any number of threads in any interleaving: when the
  // counter is zero, Z holds the process's share of the wanted eigenvectors in order.
  lemma EveryRunComputes(order: seq<nat>, il: nat, iu: nat, ctx: Context, states: seq<State>, steps: seq<Step>, k: nat)
    requires 0 <= ctx.pid < ctx.nproc && 1 <= il <= iu + 1 && iu <= |order|
    requires Assignment.IsAssigned(order, il, iu, ctx.nproc, ctx.iproc, ctx.zindex)
    requires ctx.nz == Assignment.Share(iu - il + 1, ctx.nproc, ctx.pid)
    requires SchedulerRuns.IsExecution(ctx, states, steps) && k < |states| && states[k].numLeft <= 0
    ensures HoldsShare(order, il, iu, ctx.nproc, ctx.pid, states[k].z)
  {
    SchedulerRuns.ZeroMeansDone(ctx, states, steps, k);
    ColumnsAreWanted(order, il, iu, ctx, states[k].z);
  }

  // The columns of z are vectors of the eigenvalues that are the first-th smallest, the
  // next one, and so on.
  ghost predicate HoldsSmallest(entries: seq<Assignment.Entry>, first: nat, z: seq<Column>) {
    forall k: nat :: k < |z| ==> IsVectorOf(entries, first + k, z[k])
  }

  ghost predicate IsVectorOf(entries: seq<Assignment.Entry>, rank: nat, column: Column) {
    && column.Vector? && 0 <= column.i < |entries|
    && Assignment.IsSmallest(entries, rank, entries[column.i].lambda)
  }

  // Eigenvalues that do not descend along a block, sorted with cmpa.
  ghost predicate IsSorted(entries: seq<Assignment.Entry>, order: seq<nat>) {
    && IsPermutation(order, |entries|)
    && Assignment.SortedUpToTies(entries, order) && Assignment.BlocksAscend(entries)
  }

  lemma ShareIsSmallest(entries: seq<Assignment.Entry>, order: seq<nat>, il: nat, iu: nat, nproc: nat, pid: nat,
                        z: seq<Column>)
    requires IsSorted(entries, order) && 0 < nproc && 1 <= il <= iu + 1
    requires HoldsShare(order, il, iu, nproc, pid, z)
    ensures HoldsSmallest(entries, il + Assignment.Offset(iu - il + 1, nproc, pid), z)
  {
    var offset := Assignment.Offset(iu - il + 1, nproc, pid);
    forall k: nat | k < |z| ensures IsVectorOf(entries, il + offset + k, z[k]) {
      assert IsWanted(order, il - 1 + offset + k, z[k]);
      Assignment.PlaceIsRank(entries, order, il - 1 + offset + k);
    }
  }

  // So on any process, with any number of threads, the columns are vectors of the
  // il-th to the iu-th smallest eigenvalue, each process having its share in order.
  lemma EveryRunComputesSmallest(entries: seq<Assignment.Entry>, order: seq<nat>, il: nat, iu: nat, ctx: Context,
                                 states: seq<State>, steps: seq<Step>, k: nat)
    requires IsSorted(entries, order) && 0 <= ctx.pid < ctx.nproc && 1 <= il <= iu + 1 && iu <= |order|
    requires Assignment.IsAssigned(order, il, iu, ctx.nproc, ctx.iproc, ctx.zindex)
    requires ctx.nz == Assignment.Share(iu - il + 1, ctx.nproc, ctx.pid)
    requires SchedulerRuns.IsExecution(ctx, states, steps) && k < |states| && states[k].numLeft <= 0
    ensures HoldsSmallest(entries, il + Assignment.Offset(iu - il + 1, ctx.nproc, ctx.pid), states[k].z)
  {
    EveryRunComputes(order, il, iu, ctx, states, steps, k);
    ShareIsSmallest(entries, order, il, iu, ctx.nproc, ctx.pid, states[k].z);
  }

  // plarrv with one thread on one process: column k of Z is the eigenvector of
  // the k-th wanted eigenvalue, unless a cluster is split too often. If the values
  // do not descend along a block, that is the (il + k)-th smallest.
  method ComputeAlone(entries: seq<Assignment.Entry>, order: seq<nat>, isplit: seq<nat>, gap: seq<bool>,
                      absGap: seq<bool>,
                      il: nat, iu: nat, refine: Task -> seq<bool>)
    returns (ok: bool, z: array<Column>, wq: WorkQueue)
    requires 1 <= il <= iu + 1 && iu <= |entries|
    requires IsPermutation(order, |entries|) && Assignment.KeepsBlocks(entries, order)
    requires |gap| == |absGap| == |entries| && InQueueBlocks(entries, isplit)
    requires forall t: Task :: |refine(t)| == |entries|
    ensures ok ==> z.Length == iu - il + 1 && forall k :: 0 <= k < z.Length ==> z[k] == Vector(order[il - 1 + k])
    ensures ok && IsSorted(entries, order) ==> HoldsSmallest(entries, il, z[..])
    ensures !ok ==> wq.c != [] && |entries| <= wq.c[0].depth
    ensures Sequential.AlwaysOpens(refine) ==> ok
  {
    var ctx, ts;
    ctx, ts, wq := Start(entries, order, isplit, gap, absGap, 0, 1, 1, false, il, iu);
    z := new Column[ctx.nz](i => Unset);
    ghost var s0 := StartState(ctx, ts, 1, z[..]);
    assert Init(ctx, s0);
    RootsStoreNothing(ctx, z[..], ts);
    ok := Sequential.EmptyWorkQ(ctx, ts, wq, z, refine, s0);
    Assignment.OffsetsEnd(iu - il + 1, 1);
    if ok {
      ColumnsAreWanted(order, il, iu, ctx, z[..]);
      WholeShare(order, il, iu, z[..]);
      if IsSorted(entries, order) {
        ShareIsSmallest(entries, order, il, iu, 1, 0, z[..]);
      }
    }
  }

  // One process has all of them.
  lemma WholeShare(order: seq<nat>, il: nat, iu: nat, z: seq<Column>)
    requires 1 <= il <= iu + 1 && iu <= |order| && |z| == iu - il + 1 && HoldsShare(order, il, iu, 1, 0, z)
    ensures forall k :: 0 <= k < |z| ==> z[k] == Vector(order[il - 1 + k])
  {
    forall k | 0 <= k < |z| ensures z[k] == Vector(order[il - 1 + k]) {
      assert IsWanted(order, il - 1 + k, z[k]);
    }
  }
}
