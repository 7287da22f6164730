// Processes that share a cluster go on to create the same shared subclusters,
// so no process ever waits for a message that nobody sends.
module Peers {
  import opened Tasks
  import opened Subtasks
  import opened InitQueue
  import opened Messages

  ghost predicate SameInside(gapP: seq<bool>, gapQ: seq<bool>, first: nat, last: nat)
    requires last < |gapP| && last < |gapQ|
  {
    forall k :: first <= k < last ==> gapP[k] == gapQ[k]
  }

  // Two clusters that are the same cluster for two processes.
  predicate SameCluster(t: Task, u: Task) {
    && t.Cluster? && u.Cluster?
    && t.first == u.first && t.last == u.last && t.depth == u.depth && t.block == u.block
    && t.leftPid == u.leftPid && t.rightPid == u.rightPid
  }

  // The gaps after an exchange come from values that are the same everywhere;
  // g is the test applied to two neighbouring values.
  lemma ExchangeGivesSameGaps<V>(c: SharedCluster, w: seq<seq<V>>, g: (V, V) -> bool,
                                 vP: seq<V>, vQ: seq<V>, gapP: seq<bool>, gapQ: seq<bool>)
    requires IsShared(c) && |w| == |c.runs| && forall p :: 0 <= p < |w| ==> |w[p]| == |c.iproc|
    requires |vP| == |vQ| == |gapP| == |gapQ| == |c.iproc|
    requires forall k :: c.first <= k <= c.last ==> IsExchanged(c, w, k, vP[k]) && IsExchanged(c, w, k, vQ[k])
    requires forall k :: c.first <= k < c.last ==> gapP[k] == g(vP[k], vP[k+1]) && gapQ[k] == g(vQ[k], vQ[k+1])
    ensures SameInside(gapP, gapQ, c.first, c.last)
  {
    forall k | c.first <= k <= c.last ensures vP[k] == vQ[k] {
      ReplicasAgree(c, w, k, vP[k], vQ[k]);
    }
    forall k | c.first <= k < c.last ensures gapP[k] == gapQ[k] {
      assert vP[k] == vQ[k] && vP[k+1] == vQ[k+1];
    }
  }

  // A process creates the subcluster t; then every process that owns an index of
  // t and splits the same cluster creates it too, with the same partners.
  lemma PeersCreateSameCluster(ctxP: Context, ctxQ: Context, gapP: seq<bool>, gapQ: seq<bool>, clP: Task, clQ: Task,
                               maxP: nat, maxQ: nat, tsP: seq<Task>, tsQ: seq<Task>, t: Task)
    returns (u: Task)
    requires IsCluster(ctxP, clP) && IsCluster(ctxQ, clQ) && SameCluster(clP, clQ)
    requires ctxP.iproc == ctxQ.iproc && |gapP| == |gapQ| == ctxP.n
    requires SameInside(gapP, gapQ, clP.first, clP.last)
    requires IsSplit(ctxP, gapP, clP, maxP, tsP) && IsSplit(ctxQ, gapQ, clQ, maxQ, tsQ)
    requires t in tsP && t.Cluster? && Involved(ctxQ.iproc, ctxQ.pid, t.first, t.last)
    ensures u in tsQ && SameCluster(t, u)
  {
    SplitClusterIsGroup(ctxP, gapP, clP, maxP, tsP, t);
    GroupsTransfer(gapP, gapQ, clP.first, clP.last, t.first, t.last);
    u := GroupHasSubtask(ctxQ, gapQ, clQ, maxQ, tsQ, t.first, t.last);
    SpanIsUnique(ctxQ.iproc, t.first, t.last, t.leftPid, t.rightPid, u.leftPid, u.rightPid);
  }

  lemma GroupsTransfer(gap: seq<bool>, gap': seq<bool>, lo: nat, hi: nat, first: nat, last: nat)
    requires hi < |gap| && hi < |gap'| && SameInside(gap, gap', lo, hi) && IsGroup(gap, lo, hi, first, last)
    ensures IsGroup(gap', lo, hi, first, last)
  {
  }

  lemma SplitClusterIsGroup(ctx: Context, gap: seq<bool>, cl: Task, maxSize: nat, ts: seq<Task>, t: Task)
    requires IsCluster(ctx, cl) && |gap| == ctx.n && IsSplit(ctx, gap, cl, maxSize, ts)
    requires t in ts && t.Cluster?
    ensures IsGroup(gap, cl.first, cl.last, t.first, t.last)
    ensures IsSpan(ctx.iproc, t.first, t.last, t.leftPid, t.rightPid)
    ensures t.depth == cl.depth + 1 && t.block == cl.block
  {
    assert IsSubtask(ctx, gap, cl, maxSize, t);
  }

  // A group with an index of the process is a cluster task of its split.
  lemma GroupHasSubtask(ctx: Context, gap: seq<bool>, cl: Task, maxSize: nat, ts: seq<Task>, first: nat, last: nat)
    returns (u: Task)
    requires IsCluster(ctx, cl) && |gap| == ctx.n && IsSplit(ctx, gap, cl, maxSize, ts)
    requires IsGroup(gap, cl.first, cl.last, first, last) && Involved(ctx.iproc, ctx.pid, first, last)
    ensures u in ts && u.Cluster? && u.first == first && u.last == last
    ensures u.depth == cl.depth + 1 && u.block == cl.block
    ensures IsSpan(ctx.iproc, first, last, u.leftPid, u.rightPid)
  {
    var i := OwnedMember(ctx, first, last);
    u := CoveringTask(ctx, ts, cl.first, cl.last + 1, i);
    SubtaskOfGroupMember(ctx, gap, cl, maxSize, u, first, last, i);
  }

  lemma OwnedMember(ctx: Context, first: nat, last: nat) returns (i: int)
    requires last < |ctx.iproc| && Involved(ctx.iproc, ctx.pid, first, last)
    ensures first <= i <= last && Owns(ctx, i)
  {
    i :| first <= i <= last && ctx.iproc[i] == ctx.pid;
  }

  lemma CoveringTask(ctx: Context, ts: seq<Task>, lo: nat, hi: nat, i: int) returns (u: Task)
    requires Covers(ctx, ts, lo, hi) && lo <= i < hi && Owns(ctx, i)
    ensures u in ts && Contains(u, i)
  {
    assert Covered(ts, i);
    var a :| 0 <= a < |ts| && Contains(ts[a], i);
    u := ts[a];
  }

  lemma SubtaskOfGroupMember(ctx: Context, gap: seq<bool>, cl: Task, maxSize: nat, u: Task, first: nat, last: nat,
                             i: int)
    requires IsCluster(ctx, cl) && |gap| == ctx.n && IsSubtask(ctx, gap, cl, maxSize, u)
    requires IsGroup(gap, cl.first, cl.last, first, last) && first <= i <= last && Contains(u, i)
    ensures u.Cluster? && u.first == first && u.last == last
    ensures IsSpan(ctx.iproc, first, last, u.leftPid, u.rightPid)
  {
    GroupMembersAreNotIsolated(gap, cl.first, cl.last, first, last, i);
    if u.Cluster? {
      GroupsAreEqualOrDisjoint(gap, cl.first, cl.last, first, last, u.first, u.last, i);
    }
  }

  // The same for the clusters of the initial queue.
  lemma PeersCreateSameRoot(ctxP: Context, ctxQ: Context, isplit: seq<nat>, gap: seq<bool>, absGap: seq<bool>,
                            maxP: nat, maxQ: nat, tsP: seq<Task>, tsQ: seq<Task>, t: Task)
    returns (u: Task)
    requires IsInput(ctxP, isplit, gap, absGap) && IsInput(ctxQ, isplit, gap, absGap)
    requires ctxP.iproc == ctxQ.iproc
    requires IsInitial(ctxP, isplit, gap, absGap, maxP, tsP) && IsInitial(ctxQ, isplit, gap, absGap, maxQ, tsQ)
    requires t in tsP && t.Cluster? && Involved(ctxQ.iproc, ctxQ.pid, t.first, t.last)
    ensures u in tsQ && SameCluster(t, u)
  {
    var i := OwnedMember(ctxQ, t.first, t.last);
    u := CoveringTask(ctxQ, tsQ, 0, ctxQ.n, i);
    var jT, runT := InitialTaskBlock(ctxP, isplit, gap, absGap, maxP, t);
    var jU, runU := InitialTaskBlock(ctxQ, isplit, gap, absGap, maxQ, u);
    BlocksAreApart(isplit, ctxP.n, jT, jU, i);
    var block := BlockAt(isplit, jT);
    var f, l :| IsGroup(gap, block.first, block.last, f, l) && IsPieceOf(absGap, f, l, t.first, t.last);
    RootOfGroupMember(ctxQ, gap, absGap, block, runU, maxQ, u, f, l, t.first, t.last, i);
    SpanIsUnique(ctxQ.iproc, t.first, t.last, t.leftPid, t.rightPid, u.leftPid, u.rightPid);
  }

  lemma RootOfGroupMember(ctx: Context, gap: seq<bool>, absGap: seq<bool>, block: Interval, run: Interval, maxSize: nat,
                          u: Task, f: nat, l: nat, first: nat, last: nat, i: int)
    requires |gap| == |absGap| == |ctx.iproc| && IsRootTask(ctx, gap, absGap, block, run, maxSize, u)
    requires IsGroup(gap, block.first, block.last, f, l) && IsPieceOf(absGap, f, l, first, last)
    requires first <= i <= last && Contains(u, i)
    ensures u.Cluster? && u.first == first && u.last == last
  {
    GroupMembersAreNotIsolated(gap, block.first, block.last, f, l, i);
    var f', l' :| IsGroup(gap, block.first, block.last, f', l') && IsPieceOf(absGap, f', l', u.first, u.last);
    GroupsAreEqualOrDisjoint(gap, block.first, block.last, f, l, f', l', i);
    PiecesAreEqualOrDisjoint(absGap, f, l, first, last, u.first, u.last, i);
  }

  lemma PiecesAreEqualOrDisjoint(absGap: seq<bool>, f: nat, l: nat, f1: nat, l1: nat, f2: nat, l2: nat, i: nat)
    requires l < |absGap| && IsPieceOf(absGap, f, l, f1, l1) && IsPieceOf(absGap, f, l, f2, l2)
    requires f1 <= i <= l1 && f2 <= i <= l2
    ensures f1 == f2 && l1 == l2
  {
  }

  lemma InitialTaskBlock(ctx: Context, isplit: seq<nat>, gap: seq<bool>, absGap: seq<bool>, maxSize: nat, t: Task)
    returns (j: nat, run: Interval)
    requires |gap| == |absGap| == |ctx.iproc| && IsInitialTask(ctx, isplit, gap, absGap, maxSize, t)
    ensures j < |isplit| && 0 < isplit[j] && IsRun(ctx.iproc, ctx.pid, BlockAt(isplit, j), run)
    ensures IsRootTask(ctx, gap, absGap, BlockAt(isplit, j), run, maxSize, t)
  {
    j, run :| j < |isplit| && 0 < isplit[j] && IsRun(ctx.iproc, ctx.pid, BlockAt(isplit, j), run)
              && IsRootTask(ctx, gap, absGap, BlockAt(isplit, j), run, maxSize, t);
  }

  lemma BlocksAreApart(isplit: seq<nat>, n: nat, j: nat, k: nat, i: nat)
    requires IsSplitting(isplit, n) && j < |isplit| && k < |isplit| && 0 < isplit[j] && 0 < isplit[k]
    requires BlockAt(isplit, j).first <= i <= BlockAt(isplit, j).last
    requires BlockAt(isplit, k).first <= i <= BlockAt(isplit, k).last
    ensures j == k
  {
    if j < k {
      SplittingAscends(isplit, n, j, k);
    } else if k < j {
      SplittingAscends(isplit, n, k, j);
    }
  }

  lemma {:induction false} SplittingAscends(isplit: seq<nat>, n: nat, j: nat, k: nat)
    requires IsSplitting(isplit, n) && j < k < |isplit|
    ensures isplit[j] <= isplit[k-1]
    decreases k
  {
    if j < k - 1 {
      SplittingAscends(isplit, n, j, k - 1);
    }
  }

  // Both together: once the messages of a shared cluster have arrived, P and Q
  // hold the same values, find the same gaps and create the same subcluster t.
  lemma ExchangeKeepsPeersInStep<V>(c: SharedCluster, w: seq<seq<V>>, g: (V, V) -> bool, vP: seq<V>, vQ: seq<V>,
                                    ctxP: Context, ctxQ: Context, gapP: seq<bool>, gapQ: seq<bool>,
                                    clP: Task, clQ: Task, maxP: nat, maxQ: nat, tsP: seq<Task>, tsQ: seq<Task>, t: Task)
    returns (u: Task)
    requires IsShared(c) && |w| == |c.runs| && forall p :: 0 <= p < |w| ==> |w[p]| == |c.iproc|
    requires IsCluster(ctxP, clP) && IsCluster(ctxQ, clQ) && IsView(ctxP, clP, c) && IsView(ctxQ, clQ, c)
    requires clP.depth == clQ.depth
    requires |vP| == |vQ| == |gapP| == |gapQ| == ctxP.n
    requires forall k :: c.first <= k <= c.last ==> IsExchanged(c, w, k, vP[k]) && IsExchanged(c, w, k, vQ[k])
    requires forall k :: c.first <= k < c.last ==> gapP[k] == g(vP[k], vP[k+1]) && gapQ[k] == g(vQ[k], vQ[k+1])
    requires IsSplit(ctxP, gapP, clP, maxP, tsP) && IsSplit(ctxQ, gapQ, clQ, maxQ, tsQ)
    requires t in tsP && t.Cluster? && Involved(ctxQ.iproc, ctxQ.pid, t.first, t.last)
    ensures u in tsQ && SameCluster(t, u)
  {
    ExchangeGivesSameGaps(c, w, g, vP, vQ, gapP, gapQ);
    u := PeersCreateSameCluster(ctxP, ctxQ, gapP, gapQ, clP, clQ, maxP, maxQ, tsP, tsQ, t);
  }
}
