// empty_workQ with one thread on one process: the drain loop ends, with every
// eigenvector in its column, unless a cluster is split too often.
module Sequential {
  import opened Tasks
  import opened Subtasks
  import opened Scheduler
  import opened SchedulerSteps
  import opened SchedulerRuns
  import opened Drain
  import opened Termination
  import opened Depths

  lemma CompletionsNext(steps: seq<Step>, step: Step)
    ensures Completions(steps + [step]) == Completions(steps) + if Completes(step) then 1 else 0
  {
    assert (steps + [step])[..|steps|] == steps;
  }

  // An idle thread that finds nothing in the queues has nothing left to do.
  lemma EmptyMeansDone(ctx: Context, s: State)
    requires Inv(ctx, s) && s.workers == [Worker(Idle, [])] && s.q == Queues([], [], [])
    ensures s.numLeft <= 0
  {
    IdleUncounted(s.workers);
    if i :| i in Unwritten(ctx, s.written) {
      IdleWeight(At(i), s.workers);
    }
  }

  // What the loop sees is the last state of a run whose only thread is idle.
  ghost predicate IsAt(ctx: Context, q: Queues, z: seq<Column>, numLeft: int, states: seq<State>, steps: seq<Step>) {
    && IsExecution(ctx, states, steps)
    && var s := states[|steps|];
       s.q == q && s.z == z && s.numLeft == numLeft && s.workers == [Worker(Idle, [])]
  }

  lemma AtKeepsInv(ctx: Context, q: Queues, z: seq<Column>, numLeft: int, states: seq<State>, steps: seq<Step>)
    requires IsAt(ctx, q, z, numLeft, states, steps)
    ensures Inv(ctx, states[|steps|]) && |z| == ctx.nz && QueuesOk(ctx, z, q)
  {
    RunKeepsInv(ctx, states, steps, |steps|);
  }

  lemma AtIsBounded(ctx: Context, q: Queues, z: seq<Column>, numLeft: int, states: seq<State>, steps: seq<Step>)
    requires IsAt(ctx, q, z, numLeft, states, steps)
    ensures Completions(steps) <= ctx.n * ctx.n
  {
    FewCompletions(ctx, states, steps);
  }

  lemma ExtendRun(ctx: Context, states: seq<State>, steps: seq<Step>, states': seq<State>, steps': seq<Step>)
    returns (all: seq<State>, path: seq<Step>)
    requires IsExecution(ctx, states, steps) && IsPath(ctx, states', steps') && states[|steps|] == states'[0]
    ensures IsExecution(ctx, all, path) && all[|path|] == states'[|steps'|]
    ensures Completions(path) == Completions(steps) + Completions(steps')
  {
    PathConcat(ctx, states, steps, states', steps');
    CompletionsConcat(steps, steps');
    all, path := states + states'[1..], steps + steps';
  }

  lemma OneStep(ctx: Context, states: seq<State>, steps: seq<Step>, step: Step, s: State)
    returns (all: seq<State>, path: seq<Step>)
    requires IsExecution(ctx, states, steps) && Sized(ctx, states[|steps|]) && Next(ctx, states[|steps|], step, s)
    ensures IsExecution(ctx, all, path) && all[|path|] == s
    ensures Completions(path) == Completions(steps) + if Completes(step) then 1 else 0
  {
    PathAppend(ctx, states, steps, step, s);
    CompletionsNext(steps, step);
    all, path := states + [s], steps + [step];
  }

  // One singleton task is taken and solved.
  method SolveOne(ctx: Context, wq: WorkQueue, z: array<Column>, numLeft: int, ghost states: seq<State>,
                  ghost steps: seq<Step>)
    returns (left: int, ghost states': seq<State>, ghost steps': seq<Step>)
    requires IsAt(ctx, wq.View(), z[..], numLeft, states, steps) && wq.s != []
    modifies wq, z
    ensures IsAt(ctx, wq.View(), z[..], left, states', steps') && Completions(steps) < Completions(steps')
    ensures wq.c == old(wq.c)
  {
    AtKeepsInv(ctx, wq.View(), z[..], numLeft, states, steps);
    var t := wq.s[0];
    assert t in wq.s;
    ghost var s := states[|steps|];
    ghost var s1 := SetAct(s.(q := s.q.(s := s.q.s[1..])), 0, Solving(t, t.first, 0));
    ghost var all, path := OneStep(ctx, states, steps, TakeS(0), s1);
    wq.s := wq.s[1..];
    var numDecrement;
    ghost var ss, ps;
    numDecrement, ss, ps := ProcessSTask(ctx, t, z, s1, 0);
    CompletionIsCounted(ps, |ps| - 1);
    left := numLeft - numDecrement;
    states', steps' := ExtendRun(ctx, all, path, ss, ps);
  }

  // One cluster is taken, refined and split; gap is what the refinement finds.
  method SplitOne(ctx: Context, wq: WorkQueue, z: array<Column>, numLeft: int, gap: seq<bool>,
                  ghost states: seq<State>, ghost steps: seq<Step>)
    returns (ts: seq<Task>, ghost states': seq<State>, ghost steps': seq<Step>)
    requires IsAt(ctx, wq.View(), z[..], numLeft, states, steps) && 0 < numLeft
    requires wq.c != [] && wq.c[0].depth < ctx.n && |gap| == ctx.n
    modifies wq, z
    ensures IsAt(ctx, wq.View(), z[..], numLeft, states', steps') && Completions(steps) < Completions(steps')
    ensures wq.View() == PushAll(old(wq.View()).(c := old(wq.c)[1..]), ts)
    ensures var cl := old(wq.c)[0]; forall t :: t in ts && t.Cluster? ==> IsPart(gap, cl, t)
  {
    ghost var all, path := TakeFromC(ctx, wq.View(), z[..], numLeft, states, steps);
    ghost var s1 := all[|path|];
    var cl := wq.c[0];
    wq.c := wq.c[1..];
    var processed, cl';
    ghost var ss, ps;
    processed, cl', ts, ss, ps := ProcessCTask(ctx, cl, true, gap, numLeft, wq, z, s1, 0);
    states', steps' := ExtendRun(ctx, all, path, ss, ps);
    SplitIsCounted(ps);
    SubclustersAreParts(ctx, gap, cl.(parent := Renewed), MaxSize(ctx, cl.depth, numLeft), ts);
  }

  lemma SplitIsCounted(steps: seq<Step>)
    requires exists k :: 0 <= k < |steps| && steps[k].Split?
    ensures 0 < Completions(steps)
  {
    var k :| 0 <= k < |steps| && steps[k].Split?;
    CompletionIsCounted(steps, k);
  }

  lemma TakeFromC(ctx: Context, q: Queues, z: seq<Column>, numLeft: int, states: seq<State>, steps: seq<Step>)
    returns (all: seq<State>, path: seq<Step>)
    requires IsAt(ctx, q, z, numLeft, states, steps) && q.c != [] && q.c[0].depth < ctx.n
    ensures IsExecution(ctx, all, path) && Completions(path) == Completions(steps)
    ensures var s := all[|path|];
            && Holds(ctx, s, 0, q.c[0]) && s.workers == [Worker(Busy(q.c[0]), [])]
            && s.q == q.(c := q.c[1..]) && s.z == z && s.numLeft == numLeft
  {
    AtKeepsInv(ctx, q, z, numLeft, states, steps);
    var s := states[|steps|];
    assert s.q.c[0] in s.q.c;
    var s' := SetAct(s.(q := s.q.(c := s.q.c[1..])), 0, Busy(s.q.c[0]));
    all, path := OneStep(ctx, states, steps, TakeC(0), s');
  }

  // Every refinement of a cluster separates at least two neighbours.
  ghost predicate AlwaysOpens(refine: Task -> seq<bool>) {
    forall t: Task :: t.Cluster? && t.first < t.last < |refine(t)| ==> Opens(refine(t), t)
  }

  ghost predicate AllShallow(n: nat, c: seq<Task>) {
    forall t :: t in c ==> IsShallow(n, t)
  }

  // When a gap opens, every subcluster is smaller than the cluster.
  lemma PartsAreShallow(ctx: Context, z: seq<Column>, gap: seq<bool>, cl: Task, q: Queues, ts: seq<Task>)
    requires IsShallow(ctx.n, cl) && cl.last < |gap| && Opens(gap, cl) && AllShallow(ctx.n, q.c)
    requires forall t :: t in ts && t.Cluster? ==> IsPart(gap, cl, t)
    requires QueuesOk(ctx, z, PushAll(q, ts))
    ensures AllShallow(ctx.n, PushAll(q, ts).c)
  {
    forall t | t in PushAll(q, ts).c ensures IsShallow(ctx.n, t) {
      assert IsCluster(ctx, t);
      PushedFrom(q, ts, t);
      if t !in q.c {
        assert IsPart(gap, cl, t);
      }
    }
  }

  lemma {:induction false} PushedFrom(q: Queues, ts: seq<Task>, t: Task)
    requires t in PushAll(q, ts).c
    ensures t in q.c || (t in ts && t.Cluster?)
  {
    if ts != [] && t in PushAll(q, ts[..|ts|-1]).c {
      PushedFrom(q, ts[..|ts|-1], t);
    }
  }

  lemma RootsAreShallow(ctx: Context, ts: seq<Task>)
    requires Valid(ctx) && forall t :: t in ts ==> IsRoot(ctx, t)
    ensures AllShallow(ctx.n, PushAll(Queues([], [], []), ts).c)
  {
    forall t | t in PushAll(Queues([], [], []), ts).c ensures IsShallow(ctx.n, t) {
      PushedFrom(Queues([], [], []), ts, t);
    }
  }

  lemma AtKeepsQueues(ctx: Context, q: Queues, z: seq<Column>, numLeft: int, states: seq<State>, steps: seq<Step>)
    requires IsAt(ctx, q, z, numLeft, states, steps) && ctx.nproc == 1
    ensures QueuesOk(ctx, z, q) && q.r == []
  {
    AtKeepsInv(ctx, q, z, numLeft, states, steps);
    NothingIsShared(ctx, z, q);
  }

  lemma AtEmptyMeansDone(ctx: Context, q: Queues, z: seq<Column>, numLeft: int, states: seq<State>, steps: seq<Step>)
    requires IsAt(ctx, q, z, numLeft, states, steps) && q == Queues([], [], [])
    ensures numLeft <= 0
  {
    AtKeepsInv(ctx, q, z, numLeft, states, steps);
    EmptyMeansDone(ctx, states[|steps|]);
  }

  // The call of PMR_process_r_queue at the head of the loop finds nothing.
  method TurnEmptyQueue(ctx: Context, wq: WorkQueue, z: array<Column>, numLeft: nat,
                        ghost states: seq<State>, ghost steps: seq<Step>)
    returns (ghost states': seq<State>, ghost steps': seq<Step>)
    requires IsAt(ctx, wq.View(), z[..], numLeft, states, steps) && wq.r == []
    modifies wq, z
    ensures wq.View() == old(wq.View())
    ensures IsAt(ctx, wq.View(), z[..], numLeft, states', steps') && Completions(steps) <= Completions(steps')
  {
    AtKeepsInv(ctx, wq.View(), z[..], numLeft, states, steps);
    ghost var s := states[|steps|];
    var ok;
    ghost var outcomes, ss, ps;
    ok, outcomes, ss, ps := ProcessRQueue(ctx, wq, z, 0, numLeft, [], [], s);
    states', steps' := ExtendRun(ctx, states, steps, ss, ps);
  }

  // The drain loop, after init_workQ has inserted the tasks ts. `refine` is what
  // the refinement of a cluster finds. False stands for the failed assertion that
  // guards against infinitely deep trees.
  method EmptyWorkQ(ctx: Context, ts: seq<Task>, wq: WorkQueue, z: array<Column>, refine: Task -> seq<bool>,
                    ghost s0: State)
    returns (ok: bool)
    requires ctx.nproc == 1 && Init(ctx, s0) && |s0.workers| == 1 && s0.workers[0].act == Emitting(ts)
    requires z[..] == StoreAll(s0.z, ts) && wq.View() == PushAll(Queues([], [], []), ts)
    requires forall t: Task :: |refine(t)| == ctx.n
    modifies wq, z
    ensures ok ==> forall i :: 0 <= i < ctx.n && Owns(ctx, i) ==> z[ctx.zindex[i]] == Vector(i)
    ensures ok ==> wq.View() == Queues([], [], [])
    ensures !ok ==> wq.c != [] && ctx.n <= wq.c[0].depth
    ensures AlwaysOpens(refine) ==> ok
  {
    var numLeft := ctx.nz;
    ghost var states, steps := StartRun(ctx, s0, ts);
    RootsAreShallow(ctx, ts);
    while numLeft > 0
      invariant IsAt(ctx, wq.View(), z[..], numLeft, states, steps)
      invariant AlwaysOpens(refine) ==> AllShallow(ctx.n, wq.c)
      decreases ctx.n * ctx.n - Completions(steps)
    {
      AtIsBounded(ctx, wq.View(), z[..], numLeft, states, steps);
      AtKeepsQueues(ctx, wq.View(), z[..], numLeft, states, steps);
      states, steps := TurnEmptyQueue(ctx, wq, z, numLeft, states, steps);
      if wq.s != [] {
        numLeft, states, steps := SolveOne(ctx, wq, z, numLeft, states, steps);
      } else if wq.c != [] {
        assert wq.c[0] in wq.c && (AlwaysOpens(refine) ==> IsShallow(ctx.n, wq.c[0]));
        if wq.c[0].depth >= ctx.n {
          return false;
        }
        AtKeepsQueues(ctx, wq.View(), z[..], numLeft, states, steps);
        ghost var q := wq.View();
        var cl := wq.c[0];
        var gap := refine(cl);
        var us;
        us, states, steps := SplitOne(ctx, wq, z, numLeft, gap, states, steps);
        AtKeepsQueues(ctx, wq.View(), z[..], numLeft, states, steps);
        if AlwaysOpens(refine) {
          PartsAreShallow(ctx, z[..], gap, cl, q.(c := q.c[1..]), us);
        }
      } else {
        AtEmptyMeansDone(ctx, wq.View(), z[..], numLeft, states, steps);
        assert false;
      }
      AtIsBounded(ctx, wq.View(), z[..], numLeft, states, steps);
    }
    ZeroMeansDone(ctx, states, steps, |steps|);
    return true;
  }

  lemma StartRun(ctx: Context, s0: State, ts: seq<Task>) returns (states: seq<State>, steps: seq<Step>)
    requires Init(ctx, s0) && |s0.workers| == 1 && s0.workers[0].act == Emitting(ts)
    ensures forall t :: t in ts ==> Fits(t, ctx.nz)
    ensures IsAt(ctx, PushAll(Queues([], [], []), ts), StoreAll(s0.z, ts), ctx.nz, states, steps)
  {
    InitKeepsInv(ctx, s0);
    assert WorkerOk(ctx, s0.z, 0, s0.workers[0]);
    states, steps := EmitAll(ctx, s0, 0, ts);
  }
}
