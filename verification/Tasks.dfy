// Tasks of the eigenvector scheduler, the work queue that holds them, and the
// vocabulary the other PMRRR modules share: ownership of eigenvalue indices,
// gaps between eigenvalues, and the columns of Z used as scratch space.
module Tasks {

  datatype Interval = Interval(first: nat, last: nat)

  // Where a cluster finds the representation of its parent: the root
  // representation of the block, a private copy, two columns of Z, or (once its
  // own representation has been computed) nowhere any more.
  datatype Parent = Root | Copied | InColumns(dCol: nat, lCol: nat) | Renewed

  datatype Task =
    | Singletons(first: nat, last: nat, depth: nat, block: Interval)
    | Cluster(first: nat, last: nat, depth: nat, block: Interval, run: Interval,
              leftPid: int, rightPid: int, parent: Parent, waiting: bool)

  // What one process knows: iproc and zindex are the arrays filled by
  // assign_to_proc; nz is the number of eigenvectors the process computes.
  datatype Context = Context(n: nat, pid: int, nproc: nat, nthreads: nat, funneled: bool,
                             iproc: seq<int>, zindex: seq<int>, nz: nat)

  ghost predicate Valid(ctx: Context) {
    && |ctx.iproc| == |ctx.zindex| == ctx.n
    && 0 <= ctx.pid < ctx.nproc
    && 0 < ctx.nthreads
    && (forall i :: 0 <= i < ctx.n ==> -1 <= ctx.iproc[i] < ctx.nproc)
    && (forall i :: 0 <= i < ctx.n && ctx.iproc[i] == ctx.pid ==> 0 <= ctx.zindex[i] < ctx.nz)
    && (forall i, j :: 0 <= i < j < ctx.n && ctx.iproc[i] == ctx.pid == ctx.iproc[j]
          ==> ctx.zindex[i] != ctx.zindex[j])
    && ctx.nz == |OwnedSet(ctx)|
  }

  predicate Owns(ctx: Context, i: int) {
    0 <= i < |ctx.iproc| && ctx.iproc[i] == ctx.pid
  }

  ghost function OwnedSet(ctx: Context): set<int> {
    set i | 0 <= i < |ctx.iproc| && Owns(ctx, i)
  }

  // The indices of [lo, hi) that the process owns.
  ghost function OwnedIn(ctx: Context, lo: nat, hi: nat): set<int> {
    set i | lo <= i < hi && Owns(ctx, i)
  }

  lemma OwnedInNext(ctx: Context, lo: nat, hi: nat)
    requires lo <= hi
    ensures OwnedIn(ctx, lo, hi + 1) == OwnedIn(ctx, lo, hi) + if Owns(ctx, hi) then {hi as int} else {}
    ensures |OwnedIn(ctx, lo, hi + 1)| == |OwnedIn(ctx, lo, hi)| + if Owns(ctx, hi) then 1 else 0
  {
    assert OwnedIn(ctx, lo, hi + 1) == OwnedIn(ctx, lo, hi) + if Owns(ctx, hi) then {hi as int} else {};
  }

  // Inside a block the wanted indices are contiguous and their owners ascend.
  ghost predicate Ascending(iproc: seq<int>, block: Interval) {
    && block.last < |iproc|
    && (forall i, j, k :: Between(i, j, k) && block.first <= i && k <= block.last && iproc[i] >= 0 && iproc[k] >= 0
          ==> iproc[i] <= iproc[j] <= iproc[k])
  }

  predicate Between(i: int, j: int, k: int) {
    i <= j <= k
  }

  // `run` holds exactly the indices of the block that process `pid` owns.
  ghost predicate IsRun(iproc: seq<int>, pid: int, block: Interval, run: Interval) {
    && block.first <= run.first <= run.last <= block.last < |iproc|
    && forall i :: block.first <= i <= block.last ==> (iproc[i] == pid <==> run.first <= i <= run.last)
  }

  predicate Contains(t: Task, i: int) {
    t.first <= i <= t.last
  }

  // Some process `pid` owns an index of [first, last].
  ghost predicate Involved(iproc: seq<int>, pid: int, first: nat, last: nat)
    requires last < |iproc|
  {
    exists i :: first <= i <= last && iproc[i] == pid
  }

  // left and right are the least and the greatest owner of a wanted index of [first, last].
  ghost predicate IsSpan(iproc: seq<int>, first: nat, last: nat, left: int, right: int)
    requires last < |iproc|
  {
    && 0 <= left && 0 <= right
    && (forall i :: first <= i <= last && iproc[i] >= 0 ==> left <= iproc[i] <= right)
    && Involved(iproc, left, first, last)
    && Involved(iproc, right, first, last)
  }

  lemma SpanIsUnique(iproc: seq<int>, first: nat, last: nat, l1: int, r1: int, l2: int, r2: int)
    requires last < |iproc|
    requires IsSpan(iproc, first, last, l1, r1) && IsSpan(iproc, first, last, l2, r2)
    ensures l1 == l2 && r1 == r2
  {
  }

  // Gaps. gap[i] says that eigenvalue i is well separated from eigenvalue i+1.

  predicate Isolated(gap: seq<bool>, lo: nat, hi: nat, i: int)
    requires hi < |gap|
  {
    lo <= i <= hi && (i == lo || gap[i-1]) && (i == hi || gap[i])
  }

  ghost predicate AllIsolated(gap: seq<bool>, lo: nat, hi: nat, first: nat, last: nat)
    requires hi < |gap|
  {
    forall i :: first <= i <= last ==> Isolated(gap, lo, hi, i)
  }

  // [first, last] is a maximal group of at least two eigenvalues without a gap inside.
  ghost predicate IsGroup(gap: seq<bool>, lo: nat, hi: nat, first: nat, last: nat)
    requires hi < |gap|
  {
    && lo <= first < last <= hi
    && (forall k :: first <= k < last ==> !gap[k])
    && (first == lo || gap[first-1])
    && (last == hi || gap[last])
  }

  lemma GroupMembersAreNotIsolated(gap: seq<bool>, lo: nat, hi: nat, first: nat, last: nat, i: int)
    requires hi < |gap| && IsGroup(gap, lo, hi, first, last) && first <= i <= last
    ensures !Isolated(gap, lo, hi, i)
  {
    assert !gap[if i < last then i else i - 1];
  }

  lemma GroupsAreEqualOrDisjoint(gap: seq<bool>, lo: nat, hi: nat, f1: nat, l1: nat, f2: nat, l2: nat, i: nat)
    requires hi < |gap| && IsGroup(gap, lo, hi, f1, l1) && IsGroup(gap, lo, hi, f2, l2)
    requires f1 <= i <= l1 && f2 <= i <= l2
    ensures f1 == f2 && l1 == l2
  {
  }

  // Lists of tasks in ascending order that cover what the process owns in [lo, hi).

  ghost predicate InOrder(ts: seq<Task>, lo: nat, hi: nat) {
    && (forall a :: 0 <= a < |ts| ==> Within(ts, a, lo, hi))
    && (forall a, b :: 0 <= a < b < |ts| ==> Before(ts, a, b))
  }

  predicate Within(ts: seq<Task>, a: int, lo: nat, hi: nat)
    requires 0 <= a < |ts|
  {
    lo <= ts[a].first <= ts[a].last < hi
  }

  predicate Before(ts: seq<Task>, a: int, b: int)
    requires 0 <= a < b < |ts|
  {
    ts[a].last < ts[b].first
  }

  ghost predicate Covered(ts: seq<Task>, i: int) {
    exists a :: 0 <= a < |ts| && Contains(ts[a], i)
  }

  ghost predicate Covers(ctx: Context, ts: seq<Task>, lo: nat, hi: nat) {
    && InOrder(ts, lo, hi)
    && forall i :: lo <= i < hi && Owns(ctx, i) ==> Covered(ts, i)
  }

  lemma CoversAppend(ctx: Context, ts: seq<Task>, t: Task, lo: nat, mid: nat, hi: nat)
    requires lo <= mid <= hi
    requires Covers(ctx, ts, lo, mid)
    requires mid <= t.first <= t.last < hi
    requires forall i :: mid <= i < hi && Owns(ctx, i) ==> Contains(t, i)
    ensures Covers(ctx, ts + [t], lo, hi)
  {
    var us := ts + [t];
    InOrderAppend(ts, t, lo, mid, hi);
    forall i | lo <= i < hi && Owns(ctx, i) ensures Covered(us, i) {
      if i < mid {
        assert Covered(ts, i);
        var a :| 0 <= a < |ts| && Contains(ts[a], i);
        assert us[a] == ts[a];
      } else {
        assert us[|ts|] == t;
      }
    }
  }

  lemma InOrderAppend(ts: seq<Task>, t: Task, lo: nat, mid: nat, hi: nat)
    requires lo <= mid <= hi && InOrder(ts, lo, mid)
    requires mid <= t.first <= t.last < hi
    ensures InOrder(ts + [t], lo, hi)
  {
    var us := ts + [t];
    forall a | 0 <= a < |us| ensures Within(us, a, lo, hi) {
      assert a < |ts| ==> Within(ts, a, lo, mid);
    }
    forall a, b | 0 <= a < b < |us| ensures Before(us, a, b) {
      assert Within(ts, a, lo, mid);
      assert b < |ts| ==> Before(ts, a, b);
    }
  }

  lemma CoversSkip(ctx: Context, ts: seq<Task>, lo: nat, mid: nat, hi: nat)
    requires lo <= mid <= hi
    requires Covers(ctx, ts, lo, mid)
    requires forall i :: mid <= i < hi ==> !Owns(ctx, i)
    ensures Covers(ctx, ts, lo, hi)
  {
    forall a | 0 <= a < |ts| ensures Within(ts, a, lo, hi) {
      assert Within(ts, a, lo, mid);
    }
    forall i | lo <= i < hi && Owns(ctx, i) ensures Covered(ts, i) {
      assert i < mid;
    }
  }

  // Columns of Z. A column is unused, holds the D or the L part of the parent
  // representation of a cluster, or holds eigenvector i.

  datatype Column = Unset | DPart(first: nat, last: nat, depth: nat) | LPart(first: nat, last: nat, depth: nat)
                  | Vector(i: int)

  predicate UsesColumns(t: Task) {
    t.Cluster? && t.parent.InColumns?
  }

  predicate Fits(t: Task, nz: nat) {
    UsesColumns(t) ==> t.parent.dCol < nz && t.parent.lCol < nz
  }

  function Store(z: seq<Column>, t: Task): (z': seq<Column>)
    requires Fits(t, |z|)
    ensures |z'| == |z|
  {
    if UsesColumns(t) then
      z[t.parent.dCol := DPart(t.first, t.last, t.depth)][t.parent.lCol := LPart(t.first, t.last, t.depth)]
    else z
  }

  function StoreAll(z: seq<Column>, ts: seq<Task>): (z': seq<Column>)
    requires forall t :: t in ts ==> Fits(t, |z|)
    ensures |z'| == |z|
  {
    if ts == [] then z
    else Store(StoreAll(z, ts[..|ts|-1]), ts[|ts|-1])
  }

  // The work queue: singleton tasks, clusters of this process alone, and
  // clusters shared with other processes.

  datatype Queues = Queues(s: seq<Task>, c: seq<Task>, r: seq<Task>)

  predicate Shared(t: Task) {
    t.Cluster? && t.leftPid != t.rightPid
  }

  function Push(q: Queues, t: Task): Queues {
    if t.Singletons? then q.(s := q.s + [t])
    else if t.leftPid != t.rightPid then q.(r := q.r + [t])
    else q.(c := q.c + [t])
  }

  function PushAll(q: Queues, ts: seq<Task>): Queues {
    if ts == [] then q
    else Push(PushAll(q, ts[..|ts|-1]), ts[|ts|-1])
  }

  // New tasks come after those that are in the queues.
  lemma {:induction false} PushAllGrows(q: Queues, ts: seq<Task>)
    ensures var q' := PushAll(q, ts); q.s <= q'.s && q.c <= q'.c && q.r <= q'.r
    ensures var q' := PushAll(q, ts); |q'.s| + |q'.c| + |q'.r| == |q.s| + |q.c| + |q.r| + |ts|
  {
    if ts == [] {
    } else {
      PushAllGrows(q, ts[..|ts|-1]);
    }
  }

  class WorkQueue {
    var s: seq<Task>
    var c: seq<Task>
    var r: seq<Task>

    constructor ()
      ensures View() == Queues([], [], [])
    {
      s, c, r := [], [], [];
    }

    ghost function View(): Queues
      reads this
    {
      Queues(s, c, r)
    }

    method Insert(t: Task)
      modifies this
      ensures View() == Push(old(View()), t)
    {
      if t.Singletons? {
        s := s + [t];
      } else if t.leftPid != t.rightPid {
        r := r + [t];
      } else {
        c := c + [t];
      }
    }
  }

  lemma PushAllAppend(q: Queues, ts: seq<Task>, t: Task)
    ensures PushAll(q, ts + [t]) == Push(PushAll(q, ts), t)
  {
    assert (ts + [t])[..|ts|] == ts;
  }

  lemma StoreAllAppend(z: seq<Column>, ts: seq<Task>, t: Task)
    requires Fits(t, |z|) && forall u :: u in ts ==> Fits(u, |z|)
    ensures StoreAll(z, ts + [t]) == Store(StoreAll(z, ts), t)
  {
    assert (ts + [t])[..|ts|] == ts;
  }
}
