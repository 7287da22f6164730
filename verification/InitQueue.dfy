// Filling the work queue: init_workQ of plarrv.c.
module InitQueue {
  import opened Integers
  import opened Subtasks
  import opened Tasks

  // isplit[j] is the end of block j, counted from one.
  ghost predicate IsSplitting(isplit: seq<nat>, n: nat) {
    && 0 < |isplit| && 0 < isplit[0] && isplit[|isplit|-1] == n
    && forall j :: 0 < j < |isplit| ==> isplit[j-1] < isplit[j]
  }

  predicate AtMost(isplit: seq<nat>, j: int, n: nat)
    requires 0 <= j < |isplit|
  {
    0 < isplit[j] <= n
  }

  lemma SplittingIsBounded(isplit: seq<nat>, n: nat, j: nat)
    requires IsSplitting(isplit, n) && j < |isplit|
    ensures AtMost(isplit, j, n)
  {
    var k := j;
    while k < |isplit| - 1
      invariant j <= k < |isplit| && isplit[j] <= isplit[k]
    {
      k := k + 1;
    }
    k := j;
    while 0 < k
      invariant 0 <= k <= j && isplit[k] <= isplit[j]
    {
      k := k - 1;
    }
  }

  function BlockAt(isplit: seq<nat>, j: nat): (b: Interval)
    requires j < |isplit| && 0 < isplit[j]
  {
    Interval(if j == 0 then 0 else isplit[j-1], isplit[j] - 1)
  }

  // The absolute criterion cuts a group [first, last] after k when the gap there
  // is large, unless that would leave a piece of one eigenvalue.
  predicate Cut(absGap: seq<bool>, first: nat, last: nat, k: int)
    requires last < |absGap|
    decreases k - first
  {
    first < k < last - 1 && absGap[k] && !Cut(absGap, first, last, k - 1)
  }

  // [first, last] is one of the pieces of the group [groupFirst, groupLast].
  ghost predicate IsPieceOf(absGap: seq<bool>, groupFirst: nat, groupLast: nat, first: nat, last: nat)
    requires groupLast < |absGap|
  {
    && groupFirst <= first <= last <= groupLast
    && (first == groupFirst || Cut(absGap, groupFirst, groupLast, first - 1))
    && (last == groupLast || Cut(absGap, groupFirst, groupLast, last))
    && forall k :: first <= k < last ==> !Cut(absGap, groupFirst, groupLast, k)
  }

  lemma PiecesHaveTwo(absGap: seq<bool>, groupFirst: nat, groupLast: nat, first: nat, last: nat)
    requires groupFirst < groupLast < |absGap|
    requires IsPieceOf(absGap, groupFirst, groupLast, first, last)
    ensures first < last
    ensures groupLast - groupFirst + 1 <= 3 ==> first == groupFirst && last == groupLast
  {
  }

  // A piece of the group [f, l] ends at the first large gap after its first two
  // eigenvalues, unless that is right before the last eigenvalue of the group;
  // what lies before it ends at a large gap too.
  predicate EndsAtLargeGaps(absGap: seq<bool>, f: nat, l: nat, first: nat, last: nat)
    requires l < |absGap|
  {
    && f <= first < last <= l
    && (first > f ==> absGap[first-1])
    && (last < l ==> absGap[last] && last < l - 1)
    && forall k: nat :: first < k < last && k < l - 1 ==> !absGap[k]
  }

  // The pieces are determined by this: one that starts the group, or comes right
  // after a piece.
  lemma PieceIffLargeGaps(absGap: seq<bool>, f: nat, l: nat, before: nat, first: nat, last: nat)
    requires f < l < |absGap|
    requires first == f || (before + 1 < first && first <= l && IsPieceOf(absGap, f, l, before, first - 1))
    ensures IsPieceOf(absGap, f, l, first, last) <==> EndsAtLargeGaps(absGap, f, l, first, last)
  {
    if IsPieceOf(absGap, f, l, first, last) {
      PieceEndsAtLargeGaps(absGap, f, l, first, last);
    }
    if EndsAtLargeGaps(absGap, f, l, first, last) {
      NoCutBefore(absGap, f, l, first, last);
    }
  }

  lemma NoCutBefore(absGap: seq<bool>, f: nat, l: nat, first: nat, last: nat)
    requires f < l < |absGap| && EndsAtLargeGaps(absGap, f, l, first, last)
    requires first > f ==> Cut(absGap, f, l, first - 1)
    ensures forall k :: first <= k < last ==> !Cut(absGap, f, l, k)
    ensures last < l ==> Cut(absGap, f, l, last)
  {
    forall k | first <= k < last ensures !Cut(absGap, f, l, k) {
    }
  }

  lemma PieceEndsAtLargeGaps(absGap: seq<bool>, f: nat, l: nat, first: nat, last: nat)
    requires f < l < |absGap| && IsPieceOf(absGap, f, l, first, last)
    ensures EndsAtLargeGaps(absGap, f, l, first, last)
  {
    PiecesHaveTwo(absGap, f, l, first, last);
    forall k: nat | first < k < last && k < l - 1 ensures !absGap[k] {
      assert !Cut(absGap, f, l, k) && !Cut(absGap, f, l, k - 1);
    }
  }

  // Every index of a group lies in exactly one piece of it.
  lemma PiecesTile(absGap: seq<bool>, groupFirst: nat, groupLast: nat, i: nat)
    returns (first: nat, last: nat)
    requires groupFirst <= i <= groupLast < |absGap|
    ensures IsPieceOf(absGap, groupFirst, groupLast, first, last) && first <= i <= last
    ensures forall f: nat, l: nat :: IsPieceOf(absGap, groupFirst, groupLast, f, l) && f <= i <= l ==>
        f == first && l == last
  {
    first, last := i, i;
    while first > groupFirst && !Cut(absGap, groupFirst, groupLast, first - 1)
      invariant groupFirst <= first <= i
      invariant forall k :: first <= k < i ==> !Cut(absGap, groupFirst, groupLast, k)
    {
      first := first - 1;
    }
    while last < groupLast && !Cut(absGap, groupFirst, groupLast, last)
      invariant i <= last <= groupLast
      invariant forall k :: first <= k < last ==> !Cut(absGap, groupFirst, groupLast, k)
    {
      last := last + 1;
    }
  }

  ghost predicate IsPiece(gap: seq<bool>, absGap: seq<bool>, block: Interval, first: nat, last: nat)
    requires block.last < |gap| == |absGap|
  {
    exists f, l :: IsGroup(gap, block.first, block.last, f, l) && IsPieceOf(absGap, f, l, first, last)
  }

  // A task for `block` in the initial queue of a process whose indices there are `run`.
  ghost predicate IsRootTask(ctx: Context, gap: seq<bool>, absGap: seq<bool>, block: Interval, run: Interval,
                             maxSize: nat, t: Task)
    requires |gap| == |absGap| == |ctx.iproc|
  {
    && block.first <= t.first <= t.last <= block.last < |ctx.iproc|
    && t.depth == 1
    && t.block == block
    && Involved(ctx.iproc, ctx.pid, t.first, t.last)
    && match t
       case Singletons(_, _, _, _) =>
         && t.last - t.first + 1 <= maxSize
         && run.first <= t.first && t.last <= run.last
         && AllIsolated(gap, block.first, block.last, t.first, t.last)
       case Cluster(_, _, _, _, _, _, _, _, _) =>
         && IsPiece(gap, absGap, block, t.first, t.last)
         && t.run == run
         && IsSpan(ctx.iproc, t.first, t.last, t.leftPid, t.rightPid)
         && t.parent == Root
         && !t.waiting
  }

  ghost predicate IsInitialTask(ctx: Context, isplit: seq<nat>, gap: seq<bool>, absGap: seq<bool>, maxSize: nat,
                                t: Task)
    requires |gap| == |absGap| == |ctx.iproc|
  {
    exists j: nat, run ::
      && j < |isplit| && 0 < isplit[j]
      && IsRun(ctx.iproc, ctx.pid, BlockAt(isplit, j), run)
      && IsRootTask(ctx, gap, absGap, BlockAt(isplit, j), run, maxSize, t)
  }

  ghost predicate IsInitialUpTo(ctx: Context, isplit: seq<nat>, gap: seq<bool>, absGap: seq<bool>, maxSize: nat,
                                ts: seq<Task>, done: nat)
    requires |gap| == |absGap| == |ctx.iproc|
  {
    && Covers(ctx, ts, 0, done)
    && forall t :: t in ts ==> IsInitialTask(ctx, isplit, gap, absGap, maxSize, t)
  }

  // The inputs of init_workQ: the blocks, what assign_to_proc made of them, and the gaps.
  ghost predicate IsInput(ctx: Context, isplit: seq<nat>, gap: seq<bool>, absGap: seq<bool>) {
    && Valid(ctx)
    && |gap| == |absGap| == ctx.n
    && IsSplitting(isplit, ctx.n)
    && forall j :: 0 <= j < |isplit| ==> AtMost(isplit, j, ctx.n) && Ascending(ctx.iproc, BlockAt(isplit, j))
  }

  // Scan of a block for the first run of indices owned by pid. Because owners
  // ascend there is no second run.
  method FindRun(iproc: seq<int>, pid: int, block: Interval) returns (nbl: nat, iWbegin: nat, iWend: int)
    requires Ascending(iproc, block) && 0 <= pid && block.first <= block.last
    ensures nbl == 0 <==> !Involved(iproc, pid, block.first, block.last)
    ensures nbl > 0 ==>
        iWbegin <= iWend && IsRun(iproc, pid, block, Interval(iWbegin, iWend)) && nbl == iWend - iWbegin + 1
  {
    nbl, iWbegin, iWend := 0, block.last + 1, block.first - 1;
    for i := block.first to block.last + 1
      invariant nbl == 0 ==> forall j :: block.first <= j < i ==> iproc[j] != pid
      invariant nbl > 0 ==> block.first <= iWbegin <= iWend <= block.last && iWbegin < i
      invariant nbl > 0 ==> nbl == iWend - iWbegin + 1
      invariant nbl > 0 ==> forall j :: block.first <= j < iWbegin ==> iproc[j] != pid
      invariant nbl > 0 ==> forall j :: iWbegin <= j <= iWend ==> iproc[j] == pid
      invariant nbl > 0 ==> iWend == block.last || iproc[iWend+1] != pid
    {
      if nbl == 0 && iproc[i] == pid {
        iWbegin, iWend, nbl := i, i, 1;
        var k := i + 1;
        while k <= block.last && iproc[k] == pid
          invariant k == iWend + 1 && i <= iWend <= block.last && nbl == iWend - iWbegin + 1
          invariant forall j :: iWbegin <= j <= iWend ==> iproc[j] == pid
        {
          iWend, nbl, k := iWend + 1, nbl + 1, k + 1;
        }
      }
    }
    if nbl > 0 {
      assert iproc[iWbegin] == pid;
      forall j | iWend < j <= block.last ensures iproc[j] != pid {
        assert Between(iWend, iWend + 1, j);
      }
    }
  }

  lemma AppendRootTask(ctx: Context, isplit: seq<nat>, gap: seq<bool>, absGap: seq<bool>, maxSize: nat,
                       j: nat, run: Interval, ts: seq<Task>, t: Task, done: nat)
    requires IsInput(ctx, isplit, gap, absGap) && j < |isplit| && AtMost(isplit, j, ctx.n)
    requires IsRun(ctx.iproc, ctx.pid, BlockAt(isplit, j), run)
    requires IsRootTask(ctx, gap, absGap, BlockAt(isplit, j), run, maxSize, t)
    requires done <= t.first && IsInitialUpTo(ctx, isplit, gap, absGap, maxSize, ts, done)
    requires forall i :: done <= i < t.first ==> !Owns(ctx, i)
    ensures IsInitialUpTo(ctx, isplit, gap, absGap, maxSize, ts + [t], t.last + 1)
  {
    CoversAppend(ctx, ts, t, 0, done, t.last + 1);
    assert IsInitialTask(ctx, isplit, gap, absGap, maxSize, t);
  }

  method EmitRootSingletons(ctx: Context, isplit: seq<nat>, gap: seq<bool>, absGap: seq<bool>, ghost maxSize: nat,
                            j: nat, run: Interval, first: nat, last: nat, ts: seq<Task>, wq: WorkQueue,
                            ghost q0: Queues)
    returns (us: seq<Task>)
    requires IsInput(ctx, isplit, gap, absGap) && j < |isplit| && AtMost(isplit, j, ctx.n)
    requires IsRun(ctx.iproc, ctx.pid, BlockAt(isplit, j), run)
    requires run.first <= first <= last <= run.last && last - first + 1 <= maxSize
    requires var b := BlockAt(isplit, j); AllIsolated(gap, b.first, b.last, first, last)
    requires IsInitialUpTo(ctx, isplit, gap, absGap, maxSize, ts, first)
    requires wq.View() == PushAll(q0, ts)
    modifies wq
    ensures IsInitialUpTo(ctx, isplit, gap, absGap, maxSize, us, last + 1)
    ensures us == ts + [Singletons(first, last, 1, BlockAt(isplit, j))]
    ensures wq.View() == PushAll(q0, us)
  {
    var t := Singletons(first, last, 1, BlockAt(isplit, j));
    assert ctx.iproc[first] == ctx.pid;
    AppendRootTask(ctx, isplit, gap, absGap, maxSize, j, run, ts, t, first);
    us := ts + [t];
    wq.Insert(t);
    PushAllAppend(q0, ts, t);
  }

  method EmitRootCluster(ctx: Context, isplit: seq<nat>, gap: seq<bool>, absGap: seq<bool>, ghost maxSize: nat,
                         j: nat, run: Interval, ghost groupFirst: nat, ghost groupLast: nat, first: nat, last: nat,
                         ts: seq<Task>, wq: WorkQueue, ghost q0: Queues)
    returns (us: seq<Task>)
    requires IsInput(ctx, isplit, gap, absGap) && j < |isplit| && AtMost(isplit, j, ctx.n)
    requires IsRun(ctx.iproc, ctx.pid, BlockAt(isplit, j), run)
    requires first <= run.last && run.first <= last
    requires var b := BlockAt(isplit, j); IsGroup(gap, b.first, b.last, groupFirst, groupLast)
    requires IsPieceOf(absGap, groupFirst, groupLast, first, last)
    requires IsInitialUpTo(ctx, isplit, gap, absGap, maxSize, ts, first)
    requires wq.View() == PushAll(q0, ts)
    modifies wq
    ensures IsInitialUpTo(ctx, isplit, gap, absGap, maxSize, us, last + 1)
    ensures |us| == |ts| + 1 && ts <= us
    ensures us[|ts|].Cluster? && us[|ts|].first == first && us[|ts|].last == last
    ensures wq.View() == PushAll(q0, us)
  {
    var left, right := OwnerSpan(ctx.iproc, ctx.nproc, first, last, 0);
    var t := Cluster(first, last, 1, BlockAt(isplit, j), run, left, right, Root, false);
    assert ctx.iproc[Max(first, run.first)] == ctx.pid;
    AppendRootTask(ctx, isplit, gap, absGap, maxSize, j, run, ts, t, first);
    us := ts + [t];
    wq.Insert(t);
    PushAllAppend(q0, ts, t);
  }

  // Indices of a block outside the run of the process are not owned by it.
  lemma SkipUnowned(ctx: Context, isplit: seq<nat>, gap: seq<bool>, absGap: seq<bool>, maxSize: nat,
                    block: Interval, run: Interval, ts: seq<Task>, mid: nat, hi: nat)
    requires |gap| == |absGap| == |ctx.iproc| && IsRun(ctx.iproc, ctx.pid, block, run)
    requires IsInitialUpTo(ctx, isplit, gap, absGap, maxSize, ts, mid)
    requires block.first <= mid <= hi <= block.last + 1
    requires run.last < mid || hi <= run.first
    ensures IsInitialUpTo(ctx, isplit, gap, absGap, maxSize, ts, hi)
  {
    CoversSkip(ctx, ts, 0, mid, hi);
  }

  // ts are the tasks ts0, and after them clusters that end at the large gaps of the
  // group [f, l].
  ghost predicate AddsPieces(absGap: seq<bool>, f: nat, l: nat, ts0: seq<Task>, ts: seq<Task>)
    requires l < |absGap|
  {
    && ts0 <= ts
    && forall a :: |ts0| <= a < |ts| ==> ts[a].Cluster? && EndsAtLargeGaps(absGap, f, l, ts[a].first, ts[a].last)
  }

  // One piece, if the process owns an index of it.
  method EmitPiece(ctx: Context, isplit: seq<nat>, gap: seq<bool>, absGap: seq<bool>, ghost maxSize: nat,
                   j: nat, run: Interval, ghost newFirst: nat, ghost newLast: nat, clFirst: nat, clLast: nat,
                   ghost ts0: seq<Task>, ts: seq<Task>, wq: WorkQueue, ghost q0: Queues)
    returns (us: seq<Task>)
    requires IsInput(ctx, isplit, gap, absGap) && j < |isplit| && AtMost(isplit, j, ctx.n)
    requires IsRun(ctx.iproc, ctx.pid, BlockAt(isplit, j), run)
    requires var b := BlockAt(isplit, j); IsGroup(gap, b.first, b.last, newFirst, newLast)
    requires IsPieceOf(absGap, newFirst, newLast, clFirst, clLast)
    requires IsInitialUpTo(ctx, isplit, gap, absGap, maxSize, ts, clFirst)
    requires AddsPieces(absGap, newFirst, newLast, ts0, ts) && wq.View() == PushAll(q0, ts)
    modifies wq
    ensures IsInitialUpTo(ctx, isplit, gap, absGap, maxSize, us, clLast + 1)
    ensures AddsPieces(absGap, newFirst, newLast, ts0, us) && wq.View() == PushAll(q0, us)
  {
    us := ts;
    if clLast < run.first || clFirst > run.last {
      SkipUnowned(ctx, isplit, gap, absGap, maxSize, BlockAt(isplit, j), run, ts, clFirst, clLast + 1);
    } else {
      PieceEndsAtLargeGaps(absGap, newFirst, newLast, clFirst, clLast);
      us := EmitRootCluster(ctx, isplit, gap, absGap, maxSize, j, run, newFirst, newLast, clFirst, clLast, ts, wq, q0);
    }
  }

  // A group of more than three is cut into pieces by the absolute criterion;
  // the pieces that hold an index of the process become cluster tasks.
  method EmitPieces(ctx: Context, isplit: seq<nat>, gap: seq<bool>, absGap: seq<bool>, ghost maxSize: nat,
                    j: nat, run: Interval, newFirst: nat, newLast: nat, ts0: seq<Task>, wq: WorkQueue, ghost q0: Queues)
    returns (ts: seq<Task>)
    requires IsInput(ctx, isplit, gap, absGap) && j < |isplit| && AtMost(isplit, j, ctx.n)
    requires IsRun(ctx.iproc, ctx.pid, BlockAt(isplit, j), run)
    requires newFirst <= run.last && run.first <= newLast
    requires var b := BlockAt(isplit, j); IsGroup(gap, b.first, b.last, newFirst, newLast)
    requires IsInitialUpTo(ctx, isplit, gap, absGap, maxSize, ts0, newFirst)
    requires wq.View() == PushAll(q0, ts0)
    modifies wq
    ensures IsInitialUpTo(ctx, isplit, gap, absGap, maxSize, ts, newLast + 1)
    ensures AddsPieces(absGap, newFirst, newLast, ts0, ts) && wq.View() == PushAll(q0, ts)
  {
    var clFirst, clLast, clSize := newFirst, newLast, newLast - newFirst + 1;
    ts := ts0;
    if clSize > 3 {
      for k := newFirst + 1 to newLast
        invariant newFirst <= clFirst <= k || (k == newLast && clFirst == newLast)
        invariant k == newLast ==> IsInitialUpTo(ctx, isplit, gap, absGap, maxSize, ts, newLast + 1)
        invariant k < newLast ==> IsInitialUpTo(ctx, isplit, gap, absGap, maxSize, ts, clFirst)
        invariant k < newLast ==> clFirst == newFirst || Cut(absGap, newFirst, newLast, clFirst - 1)
        invariant k < newLast ==> forall i :: clFirst <= i < k ==> !Cut(absGap, newFirst, newLast, i)
        invariant AddsPieces(absGap, newFirst, newLast, ts0, ts) && wq.View() == PushAll(q0, ts)
      {
        if k == newLast - 1 {
          clLast := newLast;
        } else if k != clFirst && absGap[k] {
          clLast := k;
        } else {
          continue;
        }
        ts := EmitPiece(ctx, isplit, gap, absGap, maxSize, j, run, newFirst, newLast, clFirst, clLast, ts0, ts, wq, q0);
        clFirst := k + 1;
      }
    } else {
      PieceEndsAtLargeGaps(absGap, newFirst, newLast, clFirst, clLast);
      ts := EmitRootCluster(ctx, isplit, gap, absGap, maxSize, j, run, newFirst, newLast, clFirst, clLast, ts, wq, q0);
    }
  }

  // Singleton tasks are filled, block by block.
  ghost predicate BlocksFilled(gap: seq<bool>, maxSize: nat, ts: seq<Task>) {
    forall a :: 0 <= a < |ts| ==> FilledAt(gap, maxSize, ts, a)
  }

  predicate FilledAt(gap: seq<bool>, maxSize: nat, ts: seq<Task>, a: int)
    requires 0 <= a < |ts|
  {
    ts[a].block.last < |gap| ==>
      && (a > 0 ==> IsFilled(gap, ts[a].block.last, maxSize, ts[a-1], ts[a]))
      && StandsAlone(gap, ts[a].block.last, ts[a])
  }

  // The run of the process ends at `to`; what comes after that is of no interest.
  ghost predicate BlocksFilledUpTo(gap: seq<bool>, block: Interval, to: nat, maxSize: nat, ts: seq<Task>, i: nat)
    requires block.last < |gap|
  {
    BlocksFilled(gap, maxSize, ts) && (i <= to ==> EndsFull(gap, block, block.last, maxSize, ts, i))
  }

  lemma FillRoot(gap: seq<bool>, block: Interval, to: nat, maxSize: nat, ts: seq<Task>, first: nat, last: nat)
    requires block.first <= first <= last <= to <= block.last < |gap|
    requires BlocksFilledUpTo(gap, block, to, maxSize, ts, first) && Isolated(gap, block.first, block.last, first)
    requires IsClosed(gap, block.last, maxSize, first, last) || last == to
    requires last == block.last && !gap[last] ==> first == last
    ensures BlocksFilledUpTo(gap, block, to, maxSize, ts + [Singletons(first, last, 1, block)], last + 1)
  {
    var us := ts + [Singletons(first, last, 1, block)];
    forall a | 0 <= a < |us| ensures FilledAt(gap, maxSize, us, a) {
      if a < |ts| {
        assert FilledAt(gap, maxSize, ts, a);
      }
    }
  }

  lemma FillClusters(gap: seq<bool>, block: Interval, to: nat, maxSize: nat, ts0: seq<Task>, ts: seq<Task>, lo: nat,
                     first: nat, i: nat)
    requires block.last < |gap| && BlocksFilled(gap, maxSize, ts0)
    requires ts0 <= ts && forall a :: |ts0| <= a < |ts| ==> ts[a].Cluster?
    requires InOrder(ts0, lo, first) && first < i
    ensures BlocksFilledUpTo(gap, block, to, maxSize, ts, i)
  {
    forall a | 0 <= a < |ts| ensures FilledAt(gap, maxSize, ts, a) {
      if a < |ts0| {
        assert FilledAt(gap, maxSize, ts0, a);
      }
    }
    if ts != [] && |ts| == |ts0| {
      assert Within(ts0, |ts0| - 1, lo, first);
    }
  }

  // Before a block begins, no task of it is there.
  lemma FilledAtStart(ctx: Context, isplit: seq<nat>, gap: seq<bool>, absGap: seq<bool>, maxSize: nat, j: nat,
                      ts: seq<Task>)
    requires IsInput(ctx, isplit, gap, absGap) && j < |isplit| && AtMost(isplit, j, ctx.n)
    requires IsInitialUpTo(ctx, isplit, gap, absGap, maxSize, ts, BlockAt(isplit, j).first)
    ensures var b := BlockAt(isplit, j); EndsFull(gap, b, b.last, maxSize, ts, b.first)
  {
    if ts != [] {
      var a := |ts| - 1;
      assert Within(ts, a, 0, BlockAt(isplit, j).first);
      assert IsInitialTask(ctx, isplit, gap, absGap, maxSize, ts[a]);
    }
  }

  // What the loop over a block has done before index i: the tasks ts, and a
  // singleton task that is open, or not.
  ghost predicate IsRootOpen(gap: seq<bool>, block: Interval, run: Interval, maxSize: nat, sn: Open, i: nat)
    requires block.last < |gap|
  {
    && run.first <= sn.first <= sn.last && sn.last + 1 == i && sn.size == sn.last - sn.first + 1 < maxSize
    && i <= run.last <= block.last && gap[sn.last] && gap[i]
    && AllIsolated(gap, block.first, block.last, sn.first, sn.last)
  }

  ghost predicate HasSplitBlock(ctx: Context, isplit: seq<nat>, gap: seq<bool>, absGap: seq<bool>, maxSize: nat,
                                block: Interval, run: Interval, ts: seq<Task>, taskInserted: bool, sn: Open,
                                newFirst: nat, i: nat)
    requires |gap| == |absGap| == |ctx.iproc| && block.last < |gap|
  {
    var open := !taskInserted && run.first < newFirst;
    && (open ==> newFirst == i && IsRootOpen(gap, block, run, maxSize, sn, i))
    && IsInitialUpTo(ctx, isplit, gap, absGap, maxSize, ts, if open then sn.first else newFirst)
    && BlocksFilledUpTo(gap, block, run.last, maxSize, ts, if open then sn.first else newFirst)
  }

  // A singleton was found at index i.
  method AddRootSingleton(ctx: Context, isplit: seq<nat>, gap: seq<bool>, absGap: seq<bool>, maxSize: nat, j: nat,
                          run: Interval, taskInserted: bool, sn: Open, i: nat, ts: seq<Task>, wq: WorkQueue,
                          ghost q0: Queues)
    returns (taskInserted': bool, sn': Open, ts': seq<Task>)
    requires IsInput(ctx, isplit, gap, absGap) && j < |isplit| && AtMost(isplit, j, ctx.n) && 0 < maxSize
    requires IsRun(ctx.iproc, ctx.pid, BlockAt(isplit, j), run) && run.first <= i <= run.last
    requires var b := BlockAt(isplit, j); Isolated(gap, b.first, b.last, i)
    requires HasSplitBlock(ctx, isplit, gap, absGap, maxSize, BlockAt(isplit, j), run, ts, taskInserted, sn, i, i)
    requires wq.View() == PushAll(q0, ts)
    modifies wq
    ensures HasSplitBlock(ctx, isplit, gap, absGap, maxSize, BlockAt(isplit, j), run, ts', taskInserted', sn', i + 1,
                          i + 1)
    ensures wq.View() == PushAll(q0, ts')
  {
    if i == run.first || taskInserted {
      sn' := Open(i, i, 1);
    } else {
      sn' := Open(sn.first, sn.last + 1, sn.size + 1);
    }
    if i == run.last || sn'.size >= maxSize || !gap[i+1] {
      FillRoot(gap, BlockAt(isplit, j), run.last, maxSize, ts, sn'.first, sn'.last);
      ts' := EmitRootSingletons(ctx, isplit, gap, absGap, maxSize, j, run, sn'.first, sn'.last, ts, wq, q0);
      taskInserted' := true;
    } else {
      ts' := ts;
      taskInserted' := false;
    }
  }

  // A group of at least two ends at index i.
  method AddRootGroup(ctx: Context, isplit: seq<nat>, gap: seq<bool>, absGap: seq<bool>, ghost maxSize: nat, j: nat,
                      run: Interval, ghost taskInserted: bool, ghost sn: Open, newFirst: nat, i: nat, ts: seq<Task>,
                      wq: WorkQueue, ghost q0: Queues)
    returns (ts': seq<Task>)
    requires IsInput(ctx, isplit, gap, absGap) && j < |isplit| && AtMost(isplit, j, ctx.n)
    requires IsRun(ctx.iproc, ctx.pid, BlockAt(isplit, j), run) && newFirst <= run.last && run.first <= i
    requires var b := BlockAt(isplit, j); IsGroup(gap, b.first, b.last, newFirst, i)
    requires HasSplitBlock(ctx, isplit, gap, absGap, maxSize, BlockAt(isplit, j), run, ts, taskInserted, sn, newFirst,
                           i)
    requires wq.View() == PushAll(q0, ts)
    modifies wq
    ensures HasSplitBlock(ctx, isplit, gap, absGap, maxSize, BlockAt(isplit, j), run, ts', true, sn, i + 1, i + 1)
    ensures wq.View() == PushAll(q0, ts')
  {
    ts' := EmitPieces(ctx, isplit, gap, absGap, maxSize, j, run, newFirst, i, ts, wq, q0);
    FillClusters(gap, BlockAt(isplit, j), run.last, maxSize, ts, ts', 0, newFirst, i + 1);
  }

  // A group outside the run of the process ends at index i.
  lemma SkipGroup(ctx: Context, isplit: seq<nat>, gap: seq<bool>, absGap: seq<bool>, maxSize: nat, block: Interval,
                  run: Interval, ts: seq<Task>, taskInserted: bool, sn: Open, newFirst: nat, i: nat)
    requires |gap| == |absGap| == |ctx.iproc| && IsRun(ctx.iproc, ctx.pid, block, run)
    requires block.first <= newFirst <= i <= block.last && (newFirst > run.last || i < run.first)
    requires HasSplitBlock(ctx, isplit, gap, absGap, maxSize, block, run, ts, taskInserted, sn, newFirst, i)
    ensures HasSplitBlock(ctx, isplit, gap, absGap, maxSize, block, run, ts, taskInserted, sn, i + 1, i + 1)
  {
    SkipUnowned(ctx, isplit, gap, absGap, maxSize, block, run, ts, newFirst, i + 1);
    FillClusters(gap, block, run.last, maxSize, ts, ts, 0, newFirst, i + 1);
  }

  // The loop over one block that holds indices of the process. The test of
  // new_first inside the singleton branch repeats the test before it and is left out.
  method SplitBlock(ctx: Context, isplit: seq<nat>, gap: seq<bool>, absGap: seq<bool>, maxSize: nat,
                    j: nat, run: Interval, ts0: seq<Task>, wq: WorkQueue, ghost q0: Queues)
    returns (ts: seq<Task>)
    requires IsInput(ctx, isplit, gap, absGap) && j < |isplit| && AtMost(isplit, j, ctx.n) && 0 < maxSize
    requires IsRun(ctx.iproc, ctx.pid, BlockAt(isplit, j), run)
    requires IsInitialUpTo(ctx, isplit, gap, absGap, maxSize, ts0, BlockAt(isplit, j).first)
    requires BlocksFilled(gap, maxSize, ts0)
    requires wq.View() == PushAll(q0, ts0)
    modifies wq
    ensures IsInitialUpTo(ctx, isplit, gap, absGap, maxSize, ts, BlockAt(isplit, j).last + 1)
    ensures BlocksFilled(gap, maxSize, ts)
    ensures wq.View() == PushAll(q0, ts)
  {
    var block := BlockAt(isplit, j);
    var taskInserted := false;
    var newFirst := block.first;
    var sn := Open(0, 0, 0);
    ts := ts0;
    FilledAtStart(ctx, isplit, gap, absGap, maxSize, j, ts);
    for i := block.first to block.last + 1
      invariant block.first <= newFirst <= i
      invariant i == block.last + 1 ==> newFirst == i
      invariant newFirst == block.first || newFirst == block.last + 1 || gap[newFirst-1]
      invariant forall k :: newFirst <= k < i ==> !gap[k]
      invariant HasSplitBlock(ctx, isplit, gap, absGap, maxSize, block, run, ts, taskInserted, sn, newFirst, i)
      invariant wq.View() == PushAll(q0, ts)
    {
      if i != block.last && !gap[i] {
        continue;
      }
      var newLast := i;
      if newFirst > run.last || newLast < run.first {
        SkipGroup(ctx, isplit, gap, absGap, maxSize, block, run, ts, taskInserted, sn, newFirst, i);
        newFirst := i + 1;
        continue;
      }
      var newSize := newLast - newFirst + 1;
      if newSize == 1 {
        taskInserted, sn, ts :=
          AddRootSingleton(ctx, isplit, gap, absGap, maxSize, j, run, taskInserted, sn, i, ts, wq, q0);
      } else {
        ts := AddRootGroup(ctx, isplit, gap, absGap, maxSize, j, run, taskInserted, sn, newFirst, i, ts, wq, q0);
        taskInserted := true;
      }
      newFirst := i + 1;
    }
  }

  ghost predicate IsInitial(ctx: Context, isplit: seq<nat>, gap: seq<bool>, absGap: seq<bool>, maxSize: nat,
                            ts: seq<Task>)
    requires |gap| == |absGap| == |ctx.iproc|
  {
    IsInitialUpTo(ctx, isplit, gap, absGap, maxSize, ts, |ctx.iproc|)
  }

  // A cluster task is cut out of a maximal group of its block, at large gaps.
  ghost predicate IsCutOut(gap: seq<bool>, absGap: seq<bool>, t: Task) {
    t.Cluster? ==>
      && t.block.last < |gap| == |absGap|
      && exists f, l ::
           IsGroup(gap, t.block.first, t.block.last, f, l) && EndsAtLargeGaps(absGap, f, l, t.first, t.last)
  }

  lemma InitialIsCutOut(ctx: Context, isplit: seq<nat>, gap: seq<bool>, absGap: seq<bool>, maxSize: nat, t: Task)
    requires |gap| == |absGap| == |ctx.iproc| && IsInitialTask(ctx, isplit, gap, absGap, maxSize, t)
    ensures IsCutOut(gap, absGap, t)
  {
    if t.Cluster? {
      var j: nat, run :| j < |isplit| && 0 < isplit[j] && IsRun(ctx.iproc, ctx.pid, BlockAt(isplit, j), run)
                         && IsRootTask(ctx, gap, absGap, BlockAt(isplit, j), run, maxSize, t);
      var block := BlockAt(isplit, j);
      var f, l :| IsGroup(gap, block.first, block.last, f, l) && IsPieceOf(absGap, f, l, t.first, t.last);
      PieceEndsAtLargeGaps(absGap, f, l, t.first, t.last);
    }
  }

  function MaxSizeAtStart(ctx: Context): nat
    requires 0 < ctx.nthreads
  {
    Max(1, ctx.nz / ctx.nthreads)
  }

  lemma MaxSizeAtStartIsQuota(ctx: Context)
    requires 0 < ctx.nthreads
    ensures var m := MaxSizeAtStart(ctx); (m == 1 || m * ctx.nthreads <= ctx.nz) && ctx.nz < (m + 1) * ctx.nthreads
  {
    QuotaIsGreatest(ctx.nz, ctx.nthreads);
  }

  // init_workQ: the tasks created cover everything the process owns, once.
  method InitWorkQ(ctx: Context, isplit: seq<nat>, gap: seq<bool>, absGap: seq<bool>, wq: WorkQueue)
    returns (ts: seq<Task>)
    requires IsInput(ctx, isplit, gap, absGap)
    modifies wq
    ensures IsInitial(ctx, isplit, gap, absGap, MaxSizeAtStart(ctx), ts)
    ensures forall t :: t in ts ==> IsCutOut(gap, absGap, t)
    ensures BlocksFilled(gap, MaxSizeAtStart(ctx), ts)
    ensures wq.View() == PushAll(old(wq.View()), ts)
  {
    ghost var q0 := wq.View();
    var maxSize := MaxSizeAtStart(ctx);
    var ibegin := 0;
    ts := [];
    for j := 0 to |isplit|
      invariant ibegin == if j == 0 then 0 else isplit[j-1]
      invariant IsInitialUpTo(ctx, isplit, gap, absGap, maxSize, ts, ibegin) && BlocksFilled(gap, maxSize, ts)
      invariant wq.View() == PushAll(q0, ts)
    {
      assert AtMost(isplit, j, ctx.n);
      var block := BlockAt(isplit, j);
      var nbl, iWbegin, iWend := FindRun(ctx.iproc, ctx.pid, block);
      if nbl == 0 {
        CoversSkip(ctx, ts, 0, ibegin, block.last + 1);
      } else {
        ts := SplitBlock(ctx, isplit, gap, absGap, maxSize, j, Interval(iWbegin, iWend), ts, wq, q0);
      }
      ibegin := block.last + 1;
    }
    forall t | t in ts ensures IsCutOut(gap, absGap, t) {
      InitialIsCutOut(ctx, isplit, gap, absGap, maxSize, t);
    }
  }
}
