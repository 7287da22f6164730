// Splitting a refined cluster into subtasks: create_subtasks of process_c_task.c.
module Subtasks {
  import opened Integers
  import opened Tasks

  // A cluster task as the queue of process ctx.pid holds it.
  ghost predicate IsCluster(ctx: Context, cl: Task) {
    && Valid(ctx)
    && cl.Cluster?
    && cl.block.first <= cl.first < cl.last <= cl.block.last < ctx.n
    && Ascending(ctx.iproc, cl.block)
    && IsRun(ctx.iproc, ctx.pid, cl.block, cl.run)
    && Involved(ctx.iproc, ctx.pid, cl.first, cl.last)
    && IsSpan(ctx.iproc, cl.first, cl.last, cl.leftPid, cl.rightPid)
  }

  // Where a new cluster [first, last] keeps its parent: a private copy when the
  // process owns one index of it, else the columns of the first two it owns.
  function ParentFor(ctx: Context, run: Interval, first: nat, last: nat): Parent
    requires Valid(ctx) && IsRunIn(ctx, run) && first <= last && first <= run.last && run.first <= last
  {
    var myFirst := Max(first, run.first);
    if myFirst == Min(last, run.last) then Copied
    else assert Owns(ctx, myFirst) && Owns(ctx, myFirst + 1); InColumns(ctx.zindex[myFirst], ctx.zindex[myFirst+1])
  }

  ghost predicate IsRunIn(ctx: Context, run: Interval) {
    run.first <= run.last < |ctx.iproc| && forall i :: run.first <= i <= run.last ==> ctx.iproc[i] == ctx.pid
  }

  // A subtask of cluster cl, for gaps `gap`.
  ghost predicate IsSubtask(ctx: Context, gap: seq<bool>, cl: Task, maxSize: nat, t: Task)
    requires IsCluster(ctx, cl) && |gap| == ctx.n
  {
    && cl.first <= t.first <= t.last <= cl.last
    && t.depth == cl.depth + 1
    && t.block == cl.block
    && Involved(ctx.iproc, ctx.pid, t.first, t.last)
    && match t
       case Singletons(_, _, _, _) =>
         && t.last - t.first + 1 <= maxSize
         && AllIsolated(gap, cl.first, cl.last, t.first, t.last)
       case Cluster(_, _, _, _, _, _, _, _, _) =>
         && IsGroup(gap, cl.first, cl.last, t.first, t.last)
         && t.run == cl.run
         && IsSpan(ctx.iproc, t.first, t.last, t.leftPid, t.rightPid)
         && t.first <= cl.run.last && cl.run.first <= t.last
         && t.parent == ParentFor(ctx, cl.run, t.first, t.last)
         && !t.waiting
  }

  ghost predicate IsSplitUpTo(ctx: Context, gap: seq<bool>, cl: Task, maxSize: nat, ts: seq<Task>, done: nat)
    requires IsCluster(ctx, cl) && |gap| == ctx.n
  {
    && Covers(ctx, ts, cl.first, done)
    && forall t :: t in ts ==> IsSubtask(ctx, gap, cl, maxSize, t)
  }

  // ts is a correct split of cl: subtasks in ascending order, every owned index in one of them.
  ghost predicate IsSplit(ctx: Context, gap: seq<bool>, cl: Task, maxSize: nat, ts: seq<Task>)
    requires IsCluster(ctx, cl) && |gap| == ctx.n
  {
    IsSplitUpTo(ctx, gap, cl, maxSize, ts, cl.last + 1)
  }

  lemma SplitAppend(ctx: Context, gap: seq<bool>, cl: Task, maxSize: nat, ts: seq<Task>, t: Task)
    requires IsCluster(ctx, cl) && |gap| == ctx.n
    requires IsSubtask(ctx, gap, cl, maxSize, t)
    requires IsSplitUpTo(ctx, gap, cl, maxSize, ts, t.first)
    ensures IsSplitUpTo(ctx, gap, cl, maxSize, ts + [t], t.last + 1)
  {
    CoversAppend(ctx, ts, t, cl.first, t.first, t.last + 1);
  }

  // The owners of the wanted indices of [first, last] lie between left and
  // right; with no wanted index the result is the pair of starting values.
  method OwnerSpan(iproc: seq<int>, nproc: nat, first: nat, last: nat, right0: int) returns (left: int, right: int)
    requires first <= last < |iproc|
    requires forall i :: first <= i <= last ==> -1 <= iproc[i] < nproc
    requires right0 <= 0
    ensures (exists i :: first <= i <= last && iproc[i] >= 0) ==> IsSpan(iproc, first, last, left, right)
    ensures (forall i :: first <= i <= last ==> iproc[i] == -1) ==> left == nproc - 1 && right == right0
  {
    left, right := nproc - 1, right0;
    var l := first;
    ghost var seen := false;
    while l <= last
      invariant first <= l <= last + 1
      invariant forall i :: first <= i < l && iproc[i] >= 0 ==> left <= iproc[i] <= right
      invariant seen <==> exists i :: first <= i < l && iproc[i] >= 0
      invariant seen ==> 0 <= left && 0 <= right
      invariant seen ==> exists i :: first <= i < l && iproc[i] == left
      invariant seen ==> exists i :: first <= i < l && iproc[i] == right
      invariant !seen ==> left == nproc - 1 && right == right0
    {
      if iproc[l] != -1 {
        left := Min(left, iproc[l]);
        right := Max(right, iproc[l]);
        seen := true;
      }
      l := l + 1;
    }
  }

  // A process whose number lies between the outermost owners of a part of its
  // block owns an index of that part.
  lemma BetweenOwnersIsInvolved(ctx: Context, cl: Task, first: nat, last: nat, left: int, right: int)
    requires IsCluster(ctx, cl)
    requires cl.block.first <= first <= last <= cl.block.last
    requires IsSpan(ctx.iproc, first, last, left, right)
    requires left <= ctx.pid <= right
    ensures Involved(ctx.iproc, ctx.pid, first, last)
  {
    var m := cl.run.first;
    assert ctx.iproc[m] == ctx.pid;
    var a :| first <= a <= last && ctx.iproc[a] == left;
    var b :| first <= b <= last && ctx.iproc[b] == right;
    assert Between(m, m, a) || Between(a, a, m);
    assert Between(m, m, b) || Between(b, b, m);
  }

  // The two scratch columns of a new cluster belong to two different indices of
  // that cluster, both owned by the process.
  lemma ScratchIsOwned(ctx: Context, run: Interval, first: nat, last: nat)
    requires Valid(ctx) && IsRunIn(ctx, run) && first <= last && first <= run.last && run.first <= last
    requires ParentFor(ctx, run, first, last).InColumns?
    ensures var p := ParentFor(ctx, run, first, last);
            var x := Max(first, run.first);
            && first <= x < last && Owns(ctx, x) && Owns(ctx, x + 1)
            && p.dCol == ctx.zindex[x] && p.lCol == ctx.zindex[x+1]
            && p.dCol != p.lCol && p.dCol < ctx.nz && p.lCol < ctx.nz
  {
  }

  // A new cluster keeps its parent in columns of Z if and only if the process owns
  // at least two of its indices; with one it gets a private copy.
  ghost predicate ParentIsFitting(ctx: Context, t: Task) {
    t.Cluster? ==>
      && (t.parent.InColumns? <==> 2 <= |OwnedIn(ctx, t.first, t.last + 1)|)
      && (t.parent == Copied <==> |OwnedIn(ctx, t.first, t.last + 1)| == 1)
  }

  lemma ParentIffOwned(ctx: Context, gap: seq<bool>, cl: Task, maxSize: nat, t: Task)
    requires IsCluster(ctx, cl) && |gap| == ctx.n && IsSubtask(ctx, gap, cl, maxSize, t)
    ensures ParentIsFitting(ctx, t)
  {
    if t.Cluster? {
      ParentForIsFitting(ctx, cl.block, cl.run, t);
    }
  }

  lemma ParentForIsFitting(ctx: Context, block: Interval, run: Interval, t: Task)
    requires Valid(ctx) && IsRun(ctx.iproc, ctx.pid, block, run) && block.first <= t.first <= t.last <= block.last
    requires t.first <= run.last && run.first <= t.last
    requires t.Cluster? && t.parent == ParentFor(ctx, run, t.first, t.last)
    ensures ParentIsFitting(ctx, t)
  {
    OwnedInRun(ctx, block, run, t.first, t.last);
    ParentForCases(ctx, run, t.first, t.last);
  }

  lemma ParentForCases(ctx: Context, run: Interval, first: nat, last: nat)
    requires Valid(ctx) && IsRunIn(ctx, run) && first <= last && first <= run.last && run.first <= last
    ensures var p := ParentFor(ctx, run, first, last);
            if Max(first, run.first) == Min(last, run.last) then p == Copied else p.InColumns?
  {
  }

  // How many indices of [first, last] the process owns, if it owns any.
  lemma OwnedInRun(ctx: Context, block: Interval, run: Interval, first: nat, last: nat)
    requires IsRun(ctx.iproc, ctx.pid, block, run) && block.first <= first <= last <= block.last
    requires first <= run.last && run.first <= last
    ensures Max(first, run.first) == Min(last, run.last) ==> |OwnedIn(ctx, first, last + 1)| == 1
    ensures Max(first, run.first) != Min(last, run.last) ==> 2 <= |OwnedIn(ctx, first, last + 1)|
  {
    var lo, hi := Max(first, run.first), Min(last, run.last);
    var owned := OwnedIn(ctx, first, last + 1);
    if lo == hi {
      assert owned == {lo};
    } else {
      assert lo in owned && lo + 1 in owned;
      SubsetIsSmaller({lo, lo + 1}, owned);
    }
  }

  lemma SplitParentsFit(ctx: Context, gap: seq<bool>, cl: Task, maxSize: nat, ts: seq<Task>)
    requires IsCluster(ctx, cl) && |gap| == ctx.n && IsSplit(ctx, gap, cl, maxSize, ts)
    ensures forall t :: t in ts ==> ParentIsFitting(ctx, t)
  {
    forall t | t in ts ensures ParentIsFitting(ctx, t) {
      ParentIffOwned(ctx, gap, cl, maxSize, t);
    }
  }

  function MaxSize(ctx: Context, depth: nat, numLeft: nat): (m: nat)
    requires ctx.nthreads > 0
    ensures 0 < m
  {
    Max(1, numLeft / (Min(depth + 1, 4) * ctx.nthreads))
  }

  // What the loops take as the number of eigenvalues of a singleton task: the
  // greatest m with m * k <= x, or one.
  lemma QuotaIsGreatest(x: nat, k: nat)
    requires 0 < k
    ensures var m := Max(1, x / k); (m == 1 || m * k <= x) && x < (m + 1) * k
  {
    var q := x / k;
    assert x == q * k + x % k;
    assert (q + 1) * k == q * k + k;
    assert q == 0 ==> q * k == 0;
  }

  lemma MaxSizeIsQuota(ctx: Context, depth: nat, numLeft: nat)
    requires ctx.nthreads > 0
    ensures var m, k := MaxSize(ctx, depth, numLeft), Min(depth + 1, 4) * ctx.nthreads;
            (m == 1 || m * k <= numLeft) && numLeft < (m + 1) * k
  {
    Scales(1, Min(depth + 1, 4), ctx.nthreads);
    QuotaIsGreatest(numLeft, Min(depth + 1, 4) * ctx.nthreads);
  }

  // Singleton tasks are filled: one comes right before another only if it has
  // maxSize members, or the other is just the last index hi, with no gap after it.
  predicate IsFilled(gap: seq<bool>, hi: nat, maxSize: nat, t: Task, u: Task)
    requires hi < |gap|
  {
    t.Singletons? && u.Singletons? && t.block == u.block && t.last + 1 == u.first ==>
      t.last - t.first + 1 == maxSize || (u.first == hi && !gap[hi])
  }

  // The last index gets a task of its own if there is no gap after it.
  predicate StandsAlone(gap: seq<bool>, hi: nat, t: Task)
    requires hi < |gap|
  {
    t.Singletons? && t.last == hi && !gap[hi] ==> t.first == hi
  }

  ghost predicate AreFilled(gap: seq<bool>, hi: nat, maxSize: nat, ts: seq<Task>)
    requires hi < |gap|
  {
    && (forall a :: 0 < a < |ts| ==> IsFilled(gap, hi, maxSize, ts[a-1], ts[a]))
    && (forall a :: 0 <= a < |ts| ==> StandsAlone(gap, hi, ts[a]))
  }

  // The last of the tasks is full, or whatever starts at i in its block is not one
  // more member of it.
  predicate EndsFull(gap: seq<bool>, block: Interval, hi: nat, maxSize: nat, ts: seq<Task>, i: nat)
    requires hi < |gap|
  {
    ts != [] && ts[|ts|-1].Singletons? && ts[|ts|-1].block == block && ts[|ts|-1].last + 1 == i ==>
      ts[|ts|-1].last - ts[|ts|-1].first + 1 == maxSize || hi < i || !gap[i]
  }

  ghost predicate IsFilledUpTo(gap: seq<bool>, block: Interval, hi: nat, maxSize: nat, ts: seq<Task>, i: nat)
    requires hi < |gap|
  {
    AreFilled(gap, hi, maxSize, ts) && EndsFull(gap, block, hi, maxSize, ts, i)
  }

  // A task that is closed because it is full, or at the end, or before a group.
  predicate IsClosed(gap: seq<bool>, hi: nat, maxSize: nat, first: nat, last: nat)
    requires last <= hi < |gap|
  {
    && (last - first + 1 == maxSize || last == hi || !gap[last+1])
    && (last == hi && !gap[hi] ==> first == hi)
  }

  lemma FilledAppend(gap: seq<bool>, block: Interval, lo: nat, hi: nat, maxSize: nat, ts: seq<Task>, t: Task)
    requires t.first <= t.last <= hi < |gap| && t.block == block
    requires IsFilledUpTo(gap, block, hi, maxSize, ts, t.first)
    requires t.Singletons? ==> Isolated(gap, lo, hi, t.first) && IsClosed(gap, hi, maxSize, t.first, t.last)
    ensures IsFilledUpTo(gap, block, hi, maxSize, ts + [t], t.last + 1)
  {
    var us := ts + [t];
    forall a | 0 < a < |us| ensures IsFilled(gap, hi, maxSize, us[a-1], us[a]) {
      if a < |ts| {
        assert IsFilled(gap, hi, maxSize, ts[a-1], ts[a]);
      }
    }
    forall a | 0 <= a < |us| ensures StandsAlone(gap, hi, us[a]) {
      if a < |ts| {
        assert StandsAlone(gap, hi, ts[a]);
      }
    }
  }

  method ChooseParent(ctx: Context, run: Interval, first: nat, last: nat) returns (parent: Parent)
    requires Valid(ctx) && IsRunIn(ctx, run) && first <= last && first <= run.last && run.first <= last
    ensures parent == ParentFor(ctx, run, first, last)
  {
    var myFirst := Max(first, run.first);
    var myLast := Min(last, run.last);
    var copyParentRrr := myFirst == myLast;
    if copyParentRrr {
      parent := Copied;
    } else {
      assert Owns(ctx, myFirst) && Owns(ctx, myFirst + 1);
      parent := InColumns(ctx.zindex[myFirst], ctx.zindex[myFirst+1]);
    }
  }

  // The cluster subtask for the group [first, last], if the process takes part in it.
  method MakeCluster(ctx: Context, cl: Task, gap: seq<bool>, ghost maxSize: nat, first: nat, last: nat)
    returns (involved: bool, t: Task)
    requires IsCluster(ctx, cl) && |gap| == ctx.n
    requires IsGroup(gap, cl.first, cl.last, first, last)
    ensures involved <==> Involved(ctx.iproc, ctx.pid, first, last)
    ensures involved ==> t.Cluster? && t.first == first && t.last == last && IsSubtask(ctx, gap, cl, maxSize, t)
  {
    var left, right := OwnerSpan(ctx.iproc, ctx.nproc, first, last, -1);
    t := cl;
    if left > ctx.pid || right < ctx.pid {
      return false, cl;
    }
    BetweenOwnersIsInvolved(ctx, cl, first, last, left, right);
    ClusterIsSubtask(ctx, gap, cl, maxSize, first, last, left, right);
    var parent := ChooseParent(ctx, cl.run, first, last);
    t := Cluster(first, last, cl.depth + 1, cl.block, cl.run, left, right, parent, false);
    involved := true;
  }

  // The tasks ts have been put in their queues, in order, and their parents are stored.
  ghost predicate Emitted(wq: WorkQueue, z: array<Column>, q0: Queues, z0: seq<Column>, ts: seq<Task>)
    reads wq, z
  {
    && |z0| == z.Length
    && (forall t :: t in ts ==> Fits(t, z.Length))
    && wq.View() == PushAll(q0, ts)
    && z[..] == StoreAll(z0, ts)
  }

  // Unless the process is not involved, store the parent representation if the
  // task needs it and put the task in its queue.
  method Emit(wq: WorkQueue, z: array<Column>, ts: seq<Task>, involved: bool, t: Task,
              ghost q0: Queues, ghost z0: seq<Column>)
    returns (us: seq<Task>)
    requires Emitted(wq, z, q0, z0, ts) && (involved ==> Fits(t, z.Length))
    modifies wq, z
    ensures us == if involved then ts + [t] else ts
    ensures Emitted(wq, z, q0, z0, us)
  {
    us := ts;
    if involved {
      if UsesColumns(t) {
        z[t.parent.dCol] := DPart(t.first, t.last, t.depth);
        z[t.parent.lCol] := LPart(t.first, t.last, t.depth);
      }
      wq.Insert(t);
      us := ts + [t];
      PushAllAppend(q0, ts, t);
      StoreAllAppend(z0, ts, t);
    }
  }

  // The first index of [first, last] that belongs to pid decides whether pid is involved.
  method IsInvolved(iproc: seq<int>, pid: int, first: nat, last: nat) returns (involved: bool)
    requires last < |iproc|
    ensures involved <==> Involved(iproc, pid, first, last)
  {
    var k := first;
    while k <= last
      invariant first <= k
      invariant forall j :: first <= j < k && j <= last ==> iproc[j] != pid
    {
      if iproc[k] == pid {
        return true;
      }
      k := k + 1;
    }
    return false;
  }

  lemma SingletonsAreSubtask(ctx: Context, gap: seq<bool>, cl: Task, maxSize: nat, t: Task)
    requires IsCluster(ctx, cl) && |gap| == ctx.n
    requires t.Singletons? && t.depth == cl.depth + 1 && t.block == cl.block
    requires cl.first <= t.first <= t.last <= cl.last && t.last - t.first + 1 <= maxSize
    requires AllIsolated(gap, cl.first, cl.last, t.first, t.last)
    requires Involved(ctx.iproc, ctx.pid, t.first, t.last)
    ensures IsSubtask(ctx, gap, cl, maxSize, t)
  {
  }

  lemma ClusterIsSubtask(ctx: Context, gap: seq<bool>, cl: Task, maxSize: nat, first: nat, last: nat, left: int,
                         right: int)
    requires IsCluster(ctx, cl) && |gap| == ctx.n
    requires IsGroup(gap, cl.first, cl.last, first, last)
    requires IsSpan(ctx.iproc, first, last, left, right)
    requires Involved(ctx.iproc, ctx.pid, first, last)
    ensures first <= cl.run.last && cl.run.first <= last
    ensures IsSubtask(ctx, gap, cl, maxSize, Cluster(first, last, cl.depth + 1, cl.block, cl.run, left, right,
                                                     ParentFor(ctx, cl.run, first, last), false))
  {
  }

  // The singleton subtask for the isolated indices [first, last], if the process owns one of them.
  method MakeSingletons(ctx: Context, cl: Task, gap: seq<bool>, ghost maxSize: nat, first: nat, last: nat)
    returns (involved: bool, t: Task)
    requires IsCluster(ctx, cl) && |gap| == ctx.n
    requires cl.first <= first <= last <= cl.last && last - first + 1 <= maxSize
    requires AllIsolated(gap, cl.first, cl.last, first, last)
    ensures involved <==> Involved(ctx.iproc, ctx.pid, first, last)
    ensures involved ==> t.Singletons? && t.first == first && t.last == last && IsSubtask(ctx, gap, cl, maxSize, t)
  {
    involved := IsInvolved(ctx.iproc, ctx.pid, first, last);
    t := Singletons(first, last, cl.depth + 1, cl.block);
    if involved {
      SingletonsAreSubtask(ctx, gap, cl, maxSize, t);
    }
  }

  lemma AppendOrSkip(ctx: Context, gap: seq<bool>, cl: Task, maxSize: nat, first: nat, last: nat,
                     ts: seq<Task>, involved: bool, t: Task)
    requires IsCluster(ctx, cl) && |gap| == ctx.n
    requires cl.first <= first <= last <= cl.last
    requires IsSplitUpTo(ctx, gap, cl, maxSize, ts, first)
    requires involved <==> Involved(ctx.iproc, ctx.pid, first, last)
    requires involved ==> t.first == first && t.last == last && IsSubtask(ctx, gap, cl, maxSize, t)
    ensures IsSplitUpTo(ctx, gap, cl, maxSize, if involved then ts + [t] else ts, last + 1)
    ensures involved ==> Fits(t, ctx.nz)
  {
    if involved {
      SplitAppend(ctx, gap, cl, maxSize, ts, t);
      SubtaskFits(ctx, gap, cl, maxSize, t);
    } else {
      CoversSkip(ctx, ts, cl.first, first, last + 1);
    }
  }

  lemma FillOrSkip(gap: seq<bool>, block: Interval, lo: nat, hi: nat, maxSize: nat, first: nat, last: nat,
                   ts: seq<Task>, involved: bool, t: Task)
    requires first <= last <= hi < |gap| && InOrder(ts, lo, first)
    requires IsFilledUpTo(gap, block, hi, maxSize, ts, first)
    requires involved ==> t.first == first && t.last == last && t.block == block
    requires involved && t.Singletons? ==>
               Isolated(gap, lo, hi, first) && IsClosed(gap, hi, maxSize, first, last)
    ensures IsFilledUpTo(gap, block, hi, maxSize, if involved then ts + [t] else ts, last + 1)
  {
    if involved {
      FilledAppend(gap, block, lo, hi, maxSize, ts, t);
    } else if ts != [] {
      assert Within(ts, |ts| - 1, lo, first);
    }
  }

  lemma SubtaskFits(ctx: Context, gap: seq<bool>, cl: Task, maxSize: nat, t: Task)
    requires IsCluster(ctx, cl) && |gap| == ctx.n && IsSubtask(ctx, gap, cl, maxSize, t)
    ensures Fits(t, ctx.nz)
  {
    if UsesColumns(t) {
      ScratchIsOwned(ctx, cl.run, t.first, t.last);
    }
  }

  // Turn the group [first, last] into a subtask, if the process is involved in it.
  method EmitGroup(ctx: Context, cl: Task, gap: seq<bool>, ghost maxSize: nat, singletons: bool, first: nat, last: nat,
                   ts: seq<Task>, wq: WorkQueue, z: array<Column>, ghost q0: Queues, ghost z0: seq<Column>)
    returns (us: seq<Task>)
    requires IsCluster(ctx, cl) && |gap| == ctx.n && z.Length == ctx.nz
    requires cl.first <= first <= last <= cl.last
    requires if singletons then last - first + 1 <= maxSize && AllIsolated(gap, cl.first, cl.last, first, last)
             else IsGroup(gap, cl.first, cl.last, first, last)
    requires singletons ==> IsClosed(gap, cl.last, maxSize, first, last)
    requires IsSplitUpTo(ctx, gap, cl, maxSize, ts, first)
    requires IsFilledUpTo(gap, cl.block, cl.last, maxSize, ts, first)
    requires Emitted(wq, z, q0, z0, ts)
    modifies wq, z
    ensures IsSplitUpTo(ctx, gap, cl, maxSize, us, last + 1)
    ensures IsFilledUpTo(gap, cl.block, cl.last, maxSize, us, last + 1)
    ensures Emitted(wq, z, q0, z0, us)
  {
    var involved, t;
    if singletons {
      involved, t := MakeSingletons(ctx, cl, gap, maxSize, first, last);
    } else {
      involved, t := MakeCluster(ctx, cl, gap, maxSize, first, last);
    }
    AppendOrSkip(ctx, gap, cl, maxSize, first, last, ts, involved, t);
    FillOrSkip(gap, cl.block, cl.first, cl.last, maxSize, first, last, ts, involved, t);
    us := Emit(wq, z, ts, involved, t, q0, z0);
  }

  // Before index i a singleton task [first, last] is open: it is not full yet, and
  // index i will extend it.
  ghost predicate IsOpen(gap: seq<bool>, cl: Task, maxSize: nat, first: nat, last: nat, size: int, i: nat)
    requires cl.last < |gap|
  {
    && cl.first <= first <= last && last + 1 == i <= cl.last
    && size == last - first + 1 < maxSize
    && gap[last] && gap[i]
    && AllIsolated(gap, cl.first, cl.last, first, last)
  }

  lemma OpenExtends(gap: seq<bool>, cl: Task, maxSize: nat, first: nat, last: nat, size: int, i: nat)
    requires cl.last < |gap| && IsOpen(gap, cl, maxSize, first, last, size, i)
    ensures AllIsolated(gap, cl.first, cl.last, first, i) && i - first + 1 <= maxSize
  {
  }

  lemma StaysOpen(gap: seq<bool>, cl: Task, maxSize: nat, first: nat, i: nat)
    requires cl.last < |gap| && cl.first <= first <= i < cl.last && AllIsolated(gap, cl.first, cl.last, first, i)
    requires i - first + 1 < maxSize && gap[i+1]
    ensures IsOpen(gap, cl, maxSize, first, i, i - first + 1, i + 1)
  {
    assert Isolated(gap, cl.first, cl.last, i);
  }

  // The singleton task that a loop over the gaps has open, if any.
  datatype Open = Open(first: nat, last: nat, size: nat)

  // What the loop has done before index i: the subtasks ts, and an open task or not.
  ghost predicate HasSplit(ctx: Context, gap: seq<bool>, cl: Task, maxSize: nat, ts: seq<Task>, taskInserted: bool,
                           sn: Open, newFirst: nat, i: nat)
    requires IsCluster(ctx, cl) && |gap| == ctx.n
  {
    && (!taskInserted ==> newFirst == i && IsOpen(gap, cl, maxSize, sn.first, sn.last, sn.size, i))
    && IsSplitUpTo(ctx, gap, cl, maxSize, ts, if taskInserted then newFirst else sn.first)
    && IsFilledUpTo(gap, cl.block, cl.last, maxSize, ts, if taskInserted then newFirst else sn.first)
  }

  // A singleton was found at index i.
  method AddSingleton(ctx: Context, cl: Task, gap: seq<bool>, maxSize: nat, taskInserted: bool, sn: Open, i: nat,
                      ts: seq<Task>, wq: WorkQueue, z: array<Column>, ghost q0: Queues, ghost z0: seq<Column>)
    returns (taskInserted': bool, sn': Open, ts': seq<Task>)
    requires IsCluster(ctx, cl) && |gap| == ctx.n && z.Length == ctx.nz && 0 < maxSize
    requires cl.first <= i <= cl.last && Isolated(gap, cl.first, cl.last, i) && (i == cl.first ==> taskInserted)
    requires HasSplit(ctx, gap, cl, maxSize, ts, taskInserted, sn, i, i) && Emitted(wq, z, q0, z0, ts)
    modifies wq, z
    ensures HasSplit(ctx, gap, cl, maxSize, ts', taskInserted', sn', i + 1, i + 1) && Emitted(wq, z, q0, z0, ts')
    ensures i == cl.last ==> taskInserted'
  {
    if i == cl.first || taskInserted {
      sn' := Open(i, i, 1);
    } else {
      OpenExtends(gap, cl, maxSize, sn.first, sn.last, sn.size, i);
      sn' := Open(sn.first, sn.last + 1, sn.size + 1);
    }
    if i == cl.last || sn'.size >= maxSize || !gap[i+1] {
      ts' := EmitGroup(ctx, cl, gap, maxSize, true, sn'.first, sn'.last, ts, wq, z, q0, z0);
      taskInserted' := true;
    } else {
      StaysOpen(gap, cl, maxSize, sn'.first, i);
      ts' := ts;
      taskInserted' := false;
    }
  }

  // A group of at least two ends at index i.
  method AddGroup(ctx: Context, cl: Task, gap: seq<bool>, maxSize: nat, taskInserted: bool, sn: Open, newFirst: nat,
                  i: nat, ts: seq<Task>, wq: WorkQueue, z: array<Column>, ghost q0: Queues, ghost z0: seq<Column>)
    returns (ts': seq<Task>)
    requires IsCluster(ctx, cl) && |gap| == ctx.n && z.Length == ctx.nz
    requires IsGroup(gap, cl.first, cl.last, newFirst, i)
    requires HasSplit(ctx, gap, cl, maxSize, ts, taskInserted, sn, newFirst, i) && Emitted(wq, z, q0, z0, ts)
    modifies wq, z
    ensures HasSplit(ctx, gap, cl, maxSize, ts', true, sn, i + 1, i + 1) && Emitted(wq, z, q0, z0, ts')
  {
    ts' := EmitGroup(ctx, cl, gap, maxSize, false, newFirst, i, ts, wq, z, q0, z0);
  }

  // The loop of create_subtasks. numLeft is the value of the shared counter at
  // the moment it is read; nothing is assumed about it.
  method CreateSubtasks(ctx: Context, cl: Task, gap: seq<bool>, numLeft: nat, wq: WorkQueue, z: array<Column>)
    returns (ts: seq<Task>)
    requires IsCluster(ctx, cl) && |gap| == ctx.n && z.Length == ctx.nz
    modifies wq, z
    ensures IsSplit(ctx, gap, cl, MaxSize(ctx, cl.depth, numLeft), ts)
    ensures forall t :: t in ts ==> ParentIsFitting(ctx, t)
    ensures AreFilled(gap, cl.last, MaxSize(ctx, cl.depth, numLeft), ts)
    ensures Emitted(wq, z, old(wq.View()), old(z[..]), ts)
  {
    var maxSize := MaxSize(ctx, cl.depth, numLeft);
    var taskInserted := true;
    var newFirst := cl.first;
    var sn := Open(0, 0, 0);
    ts := [];
    ghost var q0, z0 := wq.View(), z[..];
    for i := cl.first to cl.last + 1
      invariant cl.first <= newFirst <= i
      invariant i == cl.last + 1 ==> newFirst == i && taskInserted
      invariant newFirst == cl.first || newFirst == cl.last + 1 || gap[newFirst-1]
      invariant forall k :: newFirst <= k < i ==> !gap[k]
      invariant newFirst == cl.first ==> taskInserted
      invariant HasSplit(ctx, gap, cl, maxSize, ts, taskInserted, sn, newFirst, i)
      invariant Emitted(wq, z, q0, z0, ts)
    {
      if i != cl.last && !gap[i] {
        continue;
      }
      var newLast := i;
      var newSize := newLast - newFirst + 1;
      if newSize == 1 {
        taskInserted, sn, ts := AddSingleton(ctx, cl, gap, maxSize, taskInserted, sn, i, ts, wq, z, q0, z0);
      } else {
        ts := AddGroup(ctx, cl, gap, maxSize, taskInserted, sn, newFirst, i, ts, wq, z, q0, z0);
        taskInserted := true;
      }
      newFirst := i + 1;
    }
    SplitParentsFit(ctx, gap, cl, maxSize, ts);
  }
}
