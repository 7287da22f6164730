// What holds over whole runs of the scheduler.
module SchedulerRuns {
  import opened Tasks
  import opened Subtasks
  import opened InitQueue
  import opened Scheduler
  import opened SchedulerSteps

  ghost predicate IsExecution(ctx: Context, states: seq<State>, steps: seq<Step>) {
    IsPath(ctx, states, steps) && Init(ctx, states[0])
  }

  // The list that init_workQ creates is a proper start of the scheduler.
  lemma InitialTasksStart(ctx: Context, isplit: seq<nat>, gap: seq<bool>, absGap: seq<bool>, maxSize: nat,
                          ts: seq<Task>)
    requires IsInput(ctx, isplit, gap, absGap) && IsInitial(ctx, isplit, gap, absGap, maxSize, ts)
    ensures Covers(ctx, ts, 0, ctx.n)
    ensures forall t :: t in ts ==> IsRoot(ctx, t)
  {
    forall t | t in ts ensures IsRoot(ctx, t) {
      assert IsInitialTask(ctx, isplit, gap, absGap, maxSize, t);
      var j: nat, run :| j < |isplit| && 0 < isplit[j]
        && IsRun(ctx.iproc, ctx.pid, BlockAt(isplit, j), run)
        && IsRootTask(ctx, gap, absGap, BlockAt(isplit, j), run, maxSize, t);
      RootTaskIsRoot(ctx, isplit, gap, absGap, maxSize, j, run, t);
    }
  }

  lemma RootTaskIsRoot(ctx: Context, isplit: seq<nat>, gap: seq<bool>, absGap: seq<bool>, maxSize: nat,
                       j: nat, run: Interval, t: Task)
    requires IsInput(ctx, isplit, gap, absGap) && j < |isplit| && AtMost(isplit, j, ctx.n)
    requires IsRun(ctx.iproc, ctx.pid, BlockAt(isplit, j), run)
    requires IsRootTask(ctx, gap, absGap, BlockAt(isplit, j), run, maxSize, t)
    ensures IsRoot(ctx, t)
  {
    if t.Cluster? {
      var block := BlockAt(isplit, j);
      var f, l :| IsGroup(gap, block.first, block.last, f, l) && IsPieceOf(absGap, f, l, t.first, t.last);
      PiecesHaveTwo(absGap, f, l, t.first, t.last);
    }
  }

  lemma RunKeepsInv(ctx: Context, states: seq<State>, steps: seq<Step>, k: nat)
    requires IsExecution(ctx, states, steps) && k < |states|
    ensures Inv(ctx, states[k])
  {
    InitKeepsInv(ctx, states[0]);
    PathKeepsInv(ctx, states, steps, k);
  }

  // Every owned index has been computed exactly once and its vector is in place.
  ghost predicate AllDone(ctx: Context, s: State)
    requires Sized(ctx, s)
  {
    forall i :: 0 <= i < |ctx.iproc| && Owns(ctx, i) ==> s.written[i] == 1 && s.z[ctx.zindex[i]] == Vector(i)
  }

  predicate IsEmpty(worker: Worker) {
    && worker.hand == []
    && !worker.act.Busy? && !worker.act.Refined?
    && (worker.act.Emitting? ==> worker.act.todo == [])
  }

  // No task is left in a queue, in a hand or with a thread.
  ghost predicate NothingLeft(s: State) {
    s.q == Queues([], [], []) && forall w :: 0 <= w < |s.workers| ==> IsEmpty(s.workers[w])
  }

  // When the drain loop may exit, all the work is done, whatever the interleaving.
  lemma ZeroMeansDone(ctx: Context, states: seq<State>, steps: seq<Step>, k: nat)
    requires IsExecution(ctx, states, steps) && k < |states|
    requires states[k].numLeft <= 0
    ensures Sized(ctx, states[k]) && AllDone(ctx, states[k]) && NothingLeft(states[k])
    ensures states[k].numLeft == 0
  {
    RunKeepsInv(ctx, states, steps, k);
    DrainedIsDone(ctx, states[k]);
  }

  lemma DrainedIsDone(ctx: Context, s: State)
    requires Inv(ctx, s) && s.numLeft <= 0
    ensures AllDone(ctx, s) && NothingLeft(s) && s.numLeft == 0
  {
    forall i | 0 <= i < |ctx.iproc| && Owns(ctx, i) ensures s.written[i] == 1 && Live(At(i), s) == 0 {
      assert i !in Unwritten(ctx, s.written);
    }
    QueueWeighs(ctx, s.q.s);
    QueueWeighs(ctx, s.q.c);
    QueueWeighs(ctx, s.q.r);
    forall w | 0 <= w < |s.workers| ensures IsEmpty(s.workers[w]) {
      WorkerWeighs(ctx, s.z, w, s.workers[w]);
      if i :| Owns(ctx, i) && 1 <= WorkerWeight(At(i), s.workers[w]) {
        WorkersAtLeast(At(i), s.workers, w);
      }
    }
  }

  lemma QueueWeighs(ctx: Context, ts: seq<Task>)
    requires forall t :: t in ts ==> IsLive(ctx, t)
    ensures ts == [] || exists i :: Owns(ctx, i) && 1 <= Sum(At(i), ts)
  {
    if ts != [] {
      assert ts[0] in ts;
      LiveTaskWeighs(ctx, ts[0], ts);
    }
  }

  lemma LiveTaskWeighs(ctx: Context, t: Task, ts: seq<Task>)
    requires IsLive(ctx, t) && t in ts
    ensures exists i :: Owns(ctx, i) && 1 <= Weight(At(i), t) <= Sum(At(i), ts)
  {
    var i :| t.first <= i <= t.last && ctx.iproc[i] == ctx.pid;
    assert Owns(ctx, i) && Contains(t, i);
    SumMember(At(i), ts, t);
  }

  lemma WorkerWeighs(ctx: Context, z: seq<Column>, w: nat, worker: Worker)
    requires WorkerOk(ctx, z, w, worker)
    ensures IsEmpty(worker) || exists i :: Owns(ctx, i) && 1 <= WorkerWeight(At(i), worker)
  {
    if worker.hand != [] {
      assert worker.hand[0] in worker.hand;
      LiveTaskWeighs(ctx, worker.hand[0], worker.hand);
    } else if worker.act.Busy? || worker.act.Refined? {
      LiveTaskWeighs(ctx, worker.act.cl, [worker.act.cl]);
    } else if worker.act.Emitting? && worker.act.todo != [] {
      assert worker.act.todo[0] in worker.act.todo;
      LiveTaskWeighs(ctx, worker.act.todo[0], worker.act.todo);
    }
  }

  // Scratch space.

  // A thread that is about to compute the representation of a cluster finds the
  // parent representation that was stored for this very cluster.
  lemma ParentIsIntact(ctx: Context, states: seq<State>, steps: seq<Step>, k: nat, w: nat)
    requires IsExecution(ctx, states, steps) && k < |states| && w < |states[k].workers|
    requires states[k].workers[w].act.Busy? && UsesColumns(states[k].workers[w].act.cl)
    ensures var cl, z := states[k].workers[w].act.cl, states[k].z;
            && cl.parent.dCol < |z| && cl.parent.lCol < |z| && cl.parent.dCol != cl.parent.lCol
            && z[cl.parent.dCol] == DPart(cl.first, cl.last, cl.depth)
            && z[cl.parent.lCol] == LPart(cl.first, cl.last, cl.depth)
  {
    RunKeepsInv(ctx, states, steps, k);
    assert WorkerOk(ctx, states[k].z, w, states[k].workers[w]);
  }

  // The indices whose columns a thread may still write in its current activity.
  ghost predicate MayWrite(ctx: Context, worker: Worker, i: int) {
    Owns(ctx, i) && match worker.act
      case Solving(t, next, _) => next <= i <= t.last
      case Emitting(todo) => exists t :: t in todo && Contains(t, i)
      case _ => false
  }

  // Two threads never have a column in common to write, no thread may write a
  // column reserved by a queued task or by a cluster another thread is reading,
  // and no thread may write the column of a finished eigenvector.
  lemma WritersAreApart(ctx: Context, states: seq<State>, steps: seq<Step>, k: nat, w: nat, i: int)
    requires IsExecution(ctx, states, steps) && k < |states| && w < |states[k].workers|
    requires MayWrite(ctx, states[k].workers[w], i)
    ensures Sized(ctx, states[k]) && 0 <= i < ctx.n && states[k].written[i] == 0
    ensures forall v :: 0 <= v < |states[k].workers| && v != w ==> !MayWrite(ctx, states[k].workers[v], i)
    ensures forall v :: 0 <= v < |states[k].workers| && v != w && states[k].workers[v].act.Busy?
              ==> !Contains(states[k].workers[v].act.cl, i)
    ensures forall t :: t in states[k].q.s || t in states[k].q.c || t in states[k].q.r ==> !Contains(t, i)
  {
    var s := states[k];
    RunKeepsInv(ctx, states, steps, k);
    MayWriteWeighs(ctx, s.workers[w], i);
    Exclusive(s.q, s.workers, w, i);
    WorkersAtLeast(At(i), s.workers, w);
    forall v | 0 <= v < |s.workers| && v != w ensures !MayWrite(ctx, s.workers[v], i) {
      if MayWrite(ctx, s.workers[v], i) {
        MayWriteWeighs(ctx, s.workers[v], i);
      }
    }
  }

  lemma MayWriteWeighs(ctx: Context, worker: Worker, i: int)
    requires MayWrite(ctx, worker, i)
    ensures 1 <= WorkerWeight(At(i), worker)
  {
    if worker.act.Emitting? {
      var t :| t in worker.act.todo && Contains(t, i);
      SumMember(At(i), worker.act.todo, t);
    }
  }

  // Two different queued tasks never contain the same index: their scratch
  // columns, which belong to indices they own, are different.
  lemma QueuedTasksAreApart(ctx: Context, states: seq<State>, steps: seq<Step>, k: nat, a: nat, b: nat, i: int)
    requires IsExecution(ctx, states, steps) && k < |states|
    requires var q := states[k].q; a < b < |q.c + q.r| && Contains((q.c + q.r)[a], i)
    ensures var q := states[k].q; !Contains((q.c + q.r)[b], i)
    ensures var q := states[k].q; forall t :: t in q.s ==> !Contains(t, i)
  {
    var s := states[k];
    RunKeepsInv(ctx, states, steps, k);
    SumAppend(At(i), s.q.c, s.q.r);
    SumMember(At(i), s.q.c + s.q.r, (s.q.c + s.q.r)[a]);
    SumMemberTwo(At(i), s.q.c + s.q.r, a, b);
    forall t | t in s.q.s ensures !Contains(t, i) {
      SumMember(At(i), s.q.s, t);
    }
  }

  lemma {:induction false} SumMemberTwo(m: Measure, ts: seq<Task>, a: nat, b: nat)
    requires a < b < |ts|
    ensures Weight(m, ts[a]) + Weight(m, ts[b]) <= Sum(m, ts)
  {
    if a > 0 {
      SumMemberTwo(m, ts[1..], a - 1, b - 1);
    } else {
      SumMember(m, ts[1..], ts[b]);
    }
  }

  // With MPI_THREAD_FUNNELED only thread 0 ever works on a cluster that needs communication.
  lemma OnlyThreadZeroCommunicates(ctx: Context, states: seq<State>, steps: seq<Step>, k: nat, w: nat)
    requires IsExecution(ctx, states, steps) && k < |states| && w < |states[k].workers| && ctx.funneled
    requires var act := states[k].workers[w].act; (act.Busy? || act.Refined?) && Shared(act.cl)
    ensures w == 0
  {
    RunKeepsInv(ctx, states, steps, k);
    assert WorkerOk(ctx, states[k].z, w, states[k].workers[w]);
  }

  // Termination.

  predicate Completes(step: Step) {
    step.Split? || step.SolveDone?
  }

  function Completions(steps: seq<Step>): nat {
    if steps == [] then 0
    else Completions(steps[..|steps|-1]) + if Completes(steps[|steps|-1]) then 1 else 0
  }

  lemma {:induction false} CompletionsConcat(steps: seq<Step>, steps': seq<Step>)
    ensures Completions(steps + steps') == Completions(steps) + Completions(steps')
  {
    if steps' == [] {
      assert steps + steps' == steps;
    } else {
      var n := |steps'| - 1;
      CompletionsConcat(steps, steps'[..n]);
      assert (steps + steps')[..|steps| + n] == steps + steps'[..n];
    }
  }

  lemma {:induction false} CompletionIsCounted(steps: seq<Step>, k: nat)
    requires k < |steps| && Completes(steps[k])
    ensures 0 < Completions(steps)
  {
    if k == |steps| - 1 {
    } else {
      CompletionIsCounted(steps[..|steps|-1], k);
    }
  }

  // The cost of the live tasks drops with each completed task and stays the same
  // in every other step, a cluster put back to wait for its messages included.
  lemma StepCost(ctx: Context, s: State, step: Step, s': State)
    requires Inv(ctx, s) && Next(ctx, s, step, s')
    ensures Completes(step) ==> Live(Cost(ctx.n), s') < Live(Cost(ctx.n), s)
    ensures !Completes(step) ==> Live(Cost(ctx.n), s') == Live(Cost(ctx.n), s)
  {
    assert WorkerOk(ctx, s.z, step.w, s.workers[step.w]);
    if KeepsTasks(step) {
      MovingKeepsLive(ctx, s, step, s', Cost(ctx.n));
    } else if step.Split? {
      SplitStepCost(ctx, s, step, s');
    } else {
      SolveCost(ctx, s, step, s');
    }
  }

  lemma SplitStepCost(ctx: Context, s: State, step: Step, s': State)
    requires Sized(ctx, s) && Next(ctx, s, step, s') && step.Split?
    requires WorkerOk(ctx, s.z, step.w, s.workers[step.w])
    ensures Live(Cost(ctx.n), s') < Live(Cost(ctx.n), s)
  {
    SplitCost(ctx, step.gap, s.workers[step.w].act.cl, step.maxSize, step.ts);
    SetWorkerWeight(Cost(ctx.n), s, step.w, s'.workers[step.w]);
  }

  lemma SolveCost(ctx: Context, s: State, step: Step, s': State)
    requires Sized(ctx, s) && Next(ctx, s, step, s') && (step.SolveNext? || step.SolveDone?)
    requires WorkerOk(ctx, s.z, step.w, s.workers[step.w])
    ensures step.SolveDone? ==> Live(Cost(ctx.n), s') < Live(Cost(ctx.n), s)
    ensures step.SolveNext? ==> Live(Cost(ctx.n), s') == Live(Cost(ctx.n), s)
  {
    SetWorkerWeight(Cost(ctx.n), s, step.w, s'.workers[step.w]);
  }

  lemma SplitCost(ctx: Context, gap: seq<bool>, cl: Task, maxSize: nat, ts: seq<Task>)
    requires IsCluster(ctx, cl) && |gap| == ctx.n && cl.depth < ctx.n
    requires IsSplit(ctx, gap, cl, maxSize, ts)
    ensures Sum(Cost(ctx.n), ts) < Weight(Cost(ctx.n), cl)
  {
    forall t | t in ts ensures t.depth == cl.depth + 1 {
      assert IsSubtask(ctx, gap, cl, maxSize, t);
    }
    PartsCost(ctx.n, ts, cl);
  }

  lemma PartsCost(n: nat, ts: seq<Task>, cl: Task)
    requires cl.first <= cl.last && cl.depth < n && InOrder(ts, cl.first, cl.last + 1)
    requires forall t :: t in ts ==> t.depth == cl.depth + 1
    ensures Sum(Cost(n), ts) < Weight(Cost(n), cl)
  {
    OrderedCost(ts, cl.first, cl.last + 1, n, cl.depth + 1);
    assert Times(cl.last + 1 - cl.first, n - cl.depth) < Times(cl.last + 1 - cl.first, n + 1 - cl.depth);
  }

  lemma {:induction false} OrderedCost(ts: seq<Task>, lo: nat, hi: nat, n: nat, depth: nat)
    requires InOrder(ts, lo, hi) && depth <= n && lo <= hi
    requires forall t :: t in ts ==> t.depth == depth
    ensures Sum(Cost(n), ts) <= Times(hi - lo, n + 1 - depth)
  {
    if ts == [] {
    } else {
      InOrderRest(ts, lo, hi);
      var mid := ts[0].last + 1;
      OrderedCost(ts[1..], mid, hi, n, depth);
      assert ts[0] in ts;
      TimesSum(mid - ts[0].first, hi - mid, n + 1 - depth);
      TimesSum(ts[0].first - lo, hi - ts[0].first, n + 1 - depth);
    }
  }

  lemma {:induction false} TimesSum(a: nat, b: nat, k: nat)
    ensures Times(a, k) + Times(b, k) == Times(a + b, k)
  {
    if k == 0 {
    } else {
      TimesSum(a, b, k - 1);
    }
  }

  lemma {:induction false} TimesIsProduct(a: nat, k: nat)
    ensures Times(a, k) == a * k
  {
    if k == 0 {
    } else {
      TimesIsProduct(a, k - 1);
    }
  }

  lemma InitialCost(ctx: Context, s: State)
    requires Init(ctx, s)
    ensures Live(Cost(ctx.n), s) <= Times(ctx.n, ctx.n)
  {
    var todo := s.workers[0].act.todo;
    IdleWeight(Cost(ctx.n), s.workers[1..]);
    if todo != [] {
      assert todo[0] in todo;
      OrderedCost(todo, 0, ctx.n, ctx.n, 1);
    }
  }

  // No run completes more than n*n tasks.
  lemma FewCompletions(ctx: Context, states: seq<State>, steps: seq<Step>)
    requires IsExecution(ctx, states, steps)
    ensures Completions(steps) <= ctx.n * ctx.n
  {
    CompletionsCost(ctx, states, steps, |steps|);
    assert steps[..|steps|] == steps;
    InitialCost(ctx, states[0]);
    TimesIsProduct(ctx.n, ctx.n);
  }

  lemma OneStepCost(ctx: Context, states: seq<State>, steps: seq<Step>, k: nat)
    requires IsExecution(ctx, states, steps) && 0 < k <= |steps| && Inv(ctx, states[k-1])
    ensures Live(Cost(ctx.n), states[k]) + (if Completes(steps[k-1]) then 1 else 0) <= Live(Cost(ctx.n), states[k-1])
  {
    assert IsStep(ctx, states, steps, k - 1);
    StepCost(ctx, states[k-1], steps[k-1], states[k]);
  }

  lemma {:induction false} CompletionsCost(ctx: Context, states: seq<State>, steps: seq<Step>, k: nat)
    requires IsExecution(ctx, states, steps) && k <= |steps|
    ensures Completions(steps[..k]) + Live(Cost(ctx.n), states[k]) <= Live(Cost(ctx.n), states[0])
    decreases k
  {
    if k == 0 {
    } else {
      CompletionsCost(ctx, states, steps, k - 1);
      RunKeepsInv(ctx, states, steps, k - 1);
      OneStepCost(ctx, states, steps, k);
      assert steps[..k][..k-1] == steps[..k-1];
    }
  }

  // Without any gap a cluster splits into itself, one level deeper.
  lemma WholeSplit(ctx: Context, gap: seq<bool>, cl: Task) returns (ts: seq<Task>)
    requires IsCluster(ctx, cl) && |gap| == ctx.n && forall i :: 0 <= i < ctx.n ==> !gap[i]
    ensures IsSplit(ctx, gap, cl, 1, ts)
  {
    ClusterIsSubtask(ctx, gap, cl, 1, cl.first, cl.last, cl.leftPid, cl.rightPid);
    var t := Cluster(cl.first, cl.last, cl.depth + 1, cl.block, cl.run, cl.leftPid, cl.rightPid,
                     ParentFor(ctx, cl.run, cl.first, cl.last), false);
    SplitAppend(ctx, gap, cl, 1, [], t);
    ts := [t];
    assert [] + [t] == ts;
  }
}
