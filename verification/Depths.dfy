// How deep clusters can be, for any number of threads and processes: where every
// refinement opens a gap, no cluster reaches the depth that the code guards against.
module Depths {
  import opened Tasks
  import opened Subtasks
  import opened Scheduler
  import opened SchedulerSteps
  import opened SchedulerRuns
  import opened Lineage
  import opened Termination

  // t is a part of cluster cl without a gap inside, one level deeper.
  predicate IsPart(gap: seq<bool>, cl: Task, t: Task) {
    && cl.first <= t.first <= t.last <= cl.last < |gap| && t.depth == cl.depth + 1
    && forall k :: t.first <= k < t.last ==> !gap[k]
  }

  lemma SubclustersAreParts(ctx: Context, gap: seq<bool>, cl: Task, maxSize: nat, ts: seq<Task>)
    requires IsCluster(ctx, cl) && |gap| == ctx.n && IsSplit(ctx, gap, cl, maxSize, ts)
    ensures forall t :: t in ts && t.Cluster? ==> IsPart(gap, cl, t)
  {
    forall t | t in ts && t.Cluster? ensures IsPart(gap, cl, t) {
      assert IsSubtask(ctx, gap, cl, maxSize, t);
    }
  }

  // A gap between two members of the cluster.
  predicate Opens(gap: seq<bool>, t: Task)
    requires t.last < |gap|
  {
    exists k :: t.first <= k < t.last && gap[k]
  }

  // Size and depth together do not exceed n + 1, so the depth of a cluster is below n.
  predicate IsShallow(n: nat, t: Task) {
    t.first < t.last && t.last - t.first + 1 + t.depth <= n + 1
  }

  ghost predicate IsShallowState(n: nat, s: State) {
    forall t :: Has(s, t) ==> IsShallow(n, t)
  }

  // Every split of the run finds a gap inside its cluster.
  ghost predicate AllOpen(states: seq<State>, steps: seq<Step>) {
    forall k, cl :: 0 <= k < |steps| && k < |states| && IsSplitOf(states[k], steps[k], cl) ==>
      FindsGap(steps[k], cl)
  }

  predicate FindsGap(step: Step, cl: Task) {
    step.Split? && cl.last < |step.gap| && Opens(step.gap, cl)
  }

  lemma StepKeepsShallow(ctx: Context, s: State, step: Step, s': State)
    requires Inv(ctx, s) && Next(ctx, s, step, s') && IsShallowState(ctx.n, s)
    requires forall cl :: IsSplitOf(s, step, cl) ==> FindsGap(step, cl)
    ensures IsShallowState(ctx.n, s')
  {
    forall t' | Has(s', t') ensures IsShallow(ctx.n, t') {
      var t := HasOrigin(ctx, s, step, s', t');
      if step.Split? && t' in step.ts {
        assert WorkerOk(ctx, s.z, step.w, s.workers[step.w]);
        PartIsShallow(ctx, s, step, s', t');
      }
    }
  }

  lemma PartIsShallow(ctx: Context, s: State, step: Step, s': State, t: Task)
    requires Sized(ctx, s) && Next(ctx, s, step, s') && IsShallowState(ctx.n, s)
    requires forall cl :: IsSplitOf(s, step, cl) ==> FindsGap(step, cl)
    requires WorkerOk(ctx, s.z, step.w, s.workers[step.w])
    requires step.Split? && t in step.ts && t.Cluster?
    ensures IsShallow(ctx.n, t)
  {
    var cl := s.workers[step.w].act.cl;
    HeldIsHeld(s.workers, step.w, cl);
    assert IsSplitOf(s, step, cl);
    OpenedPartIsShallow(ctx, step.gap, cl, step.maxSize, step.ts, t);
  }

  lemma OpenedPartIsShallow(ctx: Context, gap: seq<bool>, cl: Task, maxSize: nat, ts: seq<Task>, t: Task)
    requires IsCluster(ctx, cl) && |gap| == ctx.n && IsSplit(ctx, gap, cl, maxSize, ts)
    requires IsShallow(ctx.n, cl) && Opens(gap, cl) && t in ts && t.Cluster?
    ensures IsShallow(ctx.n, t)
  {
    SubclustersAreParts(ctx, gap, cl, maxSize, ts);
    assert IsSubtask(ctx, gap, cl, maxSize, t);
  }

  lemma InitIsShallow(ctx: Context, s: State)
    requires Init(ctx, s)
    ensures IsShallowState(ctx.n, s)
  {
    InitIsFresh(ctx, s);
    forall t | Has(s, t) ensures IsShallow(ctx.n, t) {
      assert IsRoot(ctx, t);
    }
  }

  // If every split finds a gap inside its cluster then in every state of a run,
  // with any number of threads and processes, no cluster is deeper than the
  // difference of n + 1 and its size.
  lemma {:induction false} DepthIsBounded(ctx: Context, states: seq<State>, steps: seq<Step>, k: nat)
    requires IsExecution(ctx, states, steps) && AllOpen(states, steps) && k < |states|
    ensures IsShallowState(ctx.n, states[k])
    decreases k
  {
    if k == 0 {
      InitIsShallow(ctx, states[0]);
    } else {
      DepthIsBounded(ctx, states, steps, k - 1);
      OneStepKeepsShallow(ctx, states, steps, k);
    }
  }

  lemma OneStepKeepsShallow(ctx: Context, states: seq<State>, steps: seq<Step>, k: nat)
    requires IsExecution(ctx, states, steps) && AllOpen(states, steps) && 0 < k <= |steps|
    requires IsShallowState(ctx.n, states[k-1])
    ensures IsShallowState(ctx.n, states[k])
  {
    RunKeepsInv(ctx, states, steps, k - 1);
    assert IsStep(ctx, states, steps, k - 1);
    StepKeepsShallow(ctx, states[k-1], steps[k-1], states[k]);
  }

  // So the assertion against infinitely deep trees holds for every cluster taken.
  lemma NoneIsTooDeep(ctx: Context, states: seq<State>, steps: seq<Step>, k: nat)
    requires IsExecution(ctx, states, steps) && AllOpen(states, steps) && k < |states|
    ensures NoneTooDeep(ctx, states[k])
  {
    var s := states[k];
    DepthIsBounded(ctx, states, steps, k);
    RunKeepsInv(ctx, states, steps, k);
    ShallowIsNotTooDeep(ctx, s);
  }

  lemma ShallowIsNotTooDeep(ctx: Context, s: State)
    requires QueuesOk(ctx, s.z, s.q) && WorkersOk(ctx, s) && IsShallowState(ctx.n, s)
    ensures NoneTooDeep(ctx, s)
  {
    forall t | t in s.q.c || t in s.q.r ensures t.depth < ctx.n {
      QueuedIsFound(ctx, s, t);
      assert IsShallow(ctx.n, t);
    }
    forall v, t | 0 <= v < |s.workers| && t in s.workers[v].hand ensures t.depth < ctx.n {
      HandIsFound(ctx, s, v, t);
      assert IsShallow(ctx.n, t);
    }
  }

  lemma QueuedIsFound(ctx: Context, s: State, t: Task)
    requires QueuesOk(ctx, s.z, s.q) && (t in s.q.c || t in s.q.r)
    ensures Has(s, t)
  {
  }

  lemma HandIsFound(ctx: Context, s: State, v: nat, t: Task)
    requires v < |s.workers| && WorkerOk(ctx, s.z, v, s.workers[v]) && t in s.workers[v].hand
    ensures Has(s, t)
  {
    HeldIsHeld(s.workers, v, t);
  }

  // On one process, with any number of threads, a run whose splits all find a gap
  // can only end with everything computed.
  lemma OpeningRunIsDone(ctx: Context, states: seq<State>, steps: seq<Step>)
    requires IsExecution(ctx, states, steps) && ctx.nproc == 1 && AllOpen(states, steps)
    requires Sized(ctx, states[|steps|]) && IsStuck(ctx, states[|steps|])
    ensures AllDone(ctx, states[|steps|])
  {
    StuckAloneIsDone(ctx, states, steps);
    NoneIsTooDeep(ctx, states, steps, |steps|);
    var s := states[|steps|];
    assert s.q.c != [] ==> s.q.c[0] in s.q.c;
  }
}
