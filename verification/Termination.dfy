// Termination for any number of threads: only looking at tasks that have to wait
// can go on for ever. Every other step lowers a potential.
module Termination {
  import opened Tasks
  import opened Subtasks
  import opened Scheduler
  import opened SchedulerSteps
  import opened SchedulerRuns

  // Turning the r-queue over, taking a cluster whose messages may have arrived,
  // and putting it back when they have not.
  predicate IsLooking(s: State, step: Step) {
    step.PickUp? || step.PutBack? || step.Requeue?
    || (step.TakeR? && s.q.r != [] && s.q.r[0].Cluster? && s.q.r[0].waiting)
  }

  // The potential of a task in a queue; that of a refined cluster is ClusterPotential.

  function Size(t: Task): nat {
    if t.first <= t.last then t.last - t.first + 1 else 0
  }

  function ClusterPotential(n: nat, t: Task): nat {
    if t.depth <= n then Times(5 * Size(t), n + 2 - t.depth) else 0
  }

  function TaskPotential(n: nat, t: Task): nat {
    if t.Cluster? then ClusterPotential(n, t) + (if t.waiting then 0 else 2) else Size(t) + 2
  }

  function QueuePotential(n: nat, ts: seq<Task>): nat {
    if ts == [] then 0 else TaskPotential(n, ts[0]) + QueuePotential(n, ts[1..])
  }

  function ActPotential(n: nat, act: Activity): nat {
    match act
    case Exited => 0
    case Idle => 1
    case Busy(cl) => ClusterPotential(n, cl) + 2
    case Refined(cl) => ClusterPotential(n, cl) + 1
    case Solving(t, next, _) => 2 + if next <= t.last then t.last + 1 - next else 0
    case Emitting(todo) => 2 + |todo| + QueuePotential(n, todo)
  }

  function WorkerPotential(n: nat, worker: Worker): nat {
    ActPotential(n, worker.act) + QueuePotential(n, worker.hand)
  }

  function WorkersPotential(n: nat, ws: seq<Worker>): nat {
    if ws == [] then 0 else WorkerPotential(n, ws[0]) + WorkersPotential(n, ws[1..])
  }

  function Potential(n: nat, s: State): nat {
    QueuePotential(n, s.q.s) + QueuePotential(n, s.q.c) + QueuePotential(n, s.q.r) + WorkersPotential(n, s.workers)
  }

  lemma {:induction false} PotentialAppend(n: nat, ts: seq<Task>, t: Task)
    ensures QueuePotential(n, ts + [t]) == QueuePotential(n, ts) + TaskPotential(n, t)
  {
    if ts == [] {
      assert [] + [t] == [t] && [t][1..] == [];
    } else {
      assert (ts + [t])[1..] == ts[1..] + [t];
      PotentialAppend(n, ts[1..], t);
    }
  }

  lemma {:induction false} PotentialUpdate(n: nat, ws: seq<Worker>, w: nat, worker: Worker)
    requires w < |ws|
    ensures WorkersPotential(n, ws[w := worker]) + WorkerPotential(n, ws[w])
         == WorkersPotential(n, ws) + WorkerPotential(n, worker)
  {
    if w == 0 {
      assert ws[w := worker][1..] == ws[1..];
    } else {
      assert ws[w := worker][1..] == ws[1..][w-1 := worker];
      PotentialUpdate(n, ws[1..], w - 1, worker);
    }
  }

  lemma HandOfOne(n: nat, t: Task)
    ensures QueuePotential(n, [t]) == TaskPotential(n, t) && QueuePotential(n, []) == 0
  {
    assert [t][1..] == [];
  }

  // Every task of a split, with one step to insert it, together potentials below
  // that of the cluster.

  lemma {:induction false} OrderedPotential(n: nat, ts: seq<Task>, lo: nat, hi: nat, depth: nat)
    requires InOrder(ts, lo, hi) && 1 <= depth <= n && lo <= hi
    requires forall t :: t in ts ==> t.depth == depth
    ensures |ts| + QueuePotential(n, ts) <= Times(5 * (hi - lo), n + 2 - depth) + 3 * (hi - lo)
  {
    if ts == [] {
    } else {
      InOrderRest(ts, lo, hi);
      var t, mid := ts[0], ts[0].last + 1;
      OrderedPotential(n, ts[1..], mid, hi, depth);
      assert t in ts;
      TaskIsBounded(n, t);
      TimesSum(5 * (mid - t.first), 5 * (hi - mid), n + 2 - depth);
      TimesSum(5 * (t.first - lo), 5 * (hi - t.first), n + 2 - depth);
      assert 5 * (t.first - lo) + 5 * (hi - t.first) == 5 * (hi - lo);
    }
  }

  lemma TaskIsBounded(n: nat, t: Task)
    requires t.first <= t.last && 1 <= t.depth <= n
    ensures 1 + TaskPotential(n, t) <= Times(5 * Size(t), n + 2 - t.depth) + 3 * Size(t)
  {
    assert Times(5 * Size(t), n + 2 - t.depth) >= 5 * Size(t);
  }

  lemma PartsPotential(n: nat, ts: seq<Task>, cl: Task)
    requires cl.first <= cl.last && 1 <= cl.depth < n && InOrder(ts, cl.first, cl.last + 1)
    requires forall t :: t in ts ==> t.depth == cl.depth + 1
    ensures |ts| + QueuePotential(n, ts) + 2 <= ClusterPotential(n, cl)
  {
    OrderedPotential(n, ts, cl.first, cl.last + 1, cl.depth + 1);
    var a := 5 * Size(cl);
    assert Times(a, n + 2 - cl.depth) == Times(a, n + 1 - cl.depth) + a;
  }

  lemma SplitPotential(ctx: Context, gap: seq<bool>, cl: Task, maxSize: nat, ts: seq<Task>)
    requires IsCluster(ctx, cl) && |gap| == ctx.n && cl.depth < ctx.n
    requires 1 <= cl.depth && IsSplit(ctx, gap, cl, maxSize, ts)
    ensures |ts| + QueuePotential(ctx.n, ts) + 2 <= ClusterPotential(ctx.n, cl)
  {
    forall t | t in ts ensures t.depth == cl.depth + 1 {
      assert IsSubtask(ctx, gap, cl, maxSize, t);
    }
    PartsPotential(ctx.n, ts, cl);
  }

  // Every step that is not looking lowers the potential; looking leaves it as it is.
  lemma StepLowersPotential(ctx: Context, s: State, step: Step, s': State)
    requires Inv(ctx, s) && Next(ctx, s, step, s')
    ensures IsLooking(s, step) ==> Potential(ctx.n, s') == Potential(ctx.n, s)
    ensures !IsLooking(s, step) ==> Potential(ctx.n, s') < Potential(ctx.n, s)
  {
    assert WorkerOk(ctx, s.z, step.w, s.workers[step.w]);
    if step.Split? {
      SplitLowers(ctx, s, step, s');
    } else if step.SolveNext? || step.SolveDone? {
      SolveLowers(ctx, s, step, s');
    } else if step.EmitNext? {
      EmitLowers(ctx, s, step, s');
    } else if step.Requeue? || step.PickUp? || step.PutBack? {
      LookingKeeps(ctx, s, step, s');
    } else if step.TakeS? || step.TakeC? {
      TakeLowers(ctx, s, step, s');
    } else if step.TakeR? {
      TakeSharedLowers(ctx, s, step, s');
    } else {
      MoveLowers(ctx, s, step, s');
    }
  }

  lemma SplitLowers(ctx: Context, s: State, step: Step, s': State)
    requires Sized(ctx, s) && Next(ctx, s, step, s') && step.Split?
    requires WorkerOk(ctx, s.z, step.w, s.workers[step.w])
    ensures Potential(ctx.n, s') < Potential(ctx.n, s)
  {
    SplitPotential(ctx, step.gap, s.workers[step.w].act.cl, step.maxSize, step.ts);
    PotentialUpdate(ctx.n, s.workers, step.w, s'.workers[step.w]);
  }

  lemma SolveLowers(ctx: Context, s: State, step: Step, s': State)
    requires Sized(ctx, s) && Next(ctx, s, step, s') && (step.SolveNext? || step.SolveDone?)
    ensures Potential(ctx.n, s') < Potential(ctx.n, s)
  {
    PotentialUpdate(ctx.n, s.workers, step.w, s'.workers[step.w]);
  }

  lemma EmitLowers(ctx: Context, s: State, step: Step, s': State)
    requires Sized(ctx, s) && Next(ctx, s, step, s') && step.EmitNext?
    ensures Potential(ctx.n, s') < Potential(ctx.n, s)
  {
    var t := s.workers[step.w].act.todo[0];
    PotentialAppend(ctx.n, s.q.s, t);
    PotentialAppend(ctx.n, s.q.c, t);
    PotentialAppend(ctx.n, s.q.r, t);
    PotentialUpdate(ctx.n, s.workers, step.w, s'.workers[step.w]);
  }

  lemma LookingKeeps(ctx: Context, s: State, step: Step, s': State)
    requires Sized(ctx, s) && Next(ctx, s, step, s') && (step.Requeue? || step.PickUp? || step.PutBack?)
    requires WorkerOk(ctx, s.z, step.w, s.workers[step.w])
    ensures Potential(ctx.n, s') == Potential(ctx.n, s)
  {
    if step.Requeue? {
      RequeueKeeps(ctx, s, step, s');
    } else {
      TurningKeeps(ctx, s, step, s');
    }
  }

  lemma RequeueKeeps(ctx: Context, s: State, step: Step, s': State)
    requires Sized(ctx, s) && Next(ctx, s, step, s') && step.Requeue?
    ensures Potential(ctx.n, s') == Potential(ctx.n, s)
  {
    PotentialUpdate(ctx.n, s.workers, step.w, s'.workers[step.w]);
    PotentialAppend(ctx.n, s.q.r, s.workers[step.w].act.cl.(waiting := true));
  }

  lemma TurningKeeps(ctx: Context, s: State, step: Step, s': State)
    requires Sized(ctx, s) && Next(ctx, s, step, s') && (step.PickUp? || step.PutBack?)
    requires |s.workers[step.w].hand| <= 1
    ensures Potential(ctx.n, s') == Potential(ctx.n, s)
  {
    var w, hand := step.w, s.workers[step.w].hand;
    PotentialUpdate(ctx.n, s.workers, w, s'.workers[w]);
    if step.PickUp? {
      HandOfOne(ctx.n, s.q.r[0]);
    } else {
      PotentialAppend(ctx.n, s.q.r, hand[0]);
      HandOfOne(ctx.n, hand[0]);
      assert hand == [hand[0]];
    }
  }

  lemma TakeLowers(ctx: Context, s: State, step: Step, s': State)
    requires Sized(ctx, s) && Next(ctx, s, step, s') && QueuesOk(ctx, s.z, s.q) && (step.TakeS? || step.TakeC?)
    ensures Potential(ctx.n, s') < Potential(ctx.n, s)
  {
    PotentialUpdate(ctx.n, s.workers, step.w, s'.workers[step.w]);
    assert if step.TakeS? then s.q.s[0] in s.q.s else s.q.c[0] in s.q.c;
  }

  lemma TakeSharedLowers(ctx: Context, s: State, step: Step, s': State)
    requires Sized(ctx, s) && Next(ctx, s, step, s') && step.TakeR?
    ensures IsLooking(s, step) ==> Potential(ctx.n, s') == Potential(ctx.n, s)
    ensures !IsLooking(s, step) ==> Potential(ctx.n, s') < Potential(ctx.n, s)
  {
    PotentialUpdate(ctx.n, s.workers, step.w, s'.workers[step.w]);
  }

  lemma MoveLowers(ctx: Context, s: State, step: Step, s': State)
    requires Sized(ctx, s) && Next(ctx, s, step, s') && (step.Renew? || step.EmitDone? || step.Exit?)
    ensures Potential(ctx.n, s') < Potential(ctx.n, s)
  {
    PotentialUpdate(ctx.n, s.workers, step.w, s'.workers[step.w]);
  }

  // How many of the first k steps of a run are not looking.
  function Progress(states: seq<State>, steps: seq<Step>, k: nat): nat
    requires k <= |steps| < |states|
  {
    if k == 0 then 0
    else Progress(states, steps, k - 1) + if IsLooking(states[k-1], steps[k-1]) then 0 else 1
  }

  lemma {:induction false} ProgressLowers(ctx: Context, states: seq<State>, steps: seq<Step>, k: nat)
    requires IsExecution(ctx, states, steps) && k <= |steps|
    ensures Progress(states, steps, k) + Potential(ctx.n, states[k]) <= Potential(ctx.n, states[0])
    decreases k
  {
    if k == 0 {
    } else {
      ProgressLowers(ctx, states, steps, k - 1);
      OneStepLowers(ctx, states, steps, k);
    }
  }

  lemma OneStepLowers(ctx: Context, states: seq<State>, steps: seq<Step>, k: nat)
    requires IsExecution(ctx, states, steps) && 0 < k <= |steps|
    ensures Potential(ctx.n, states[k]) + (if IsLooking(states[k-1], steps[k-1]) then 0 else 1)
         <= Potential(ctx.n, states[k-1])
  {
    RunKeepsInv(ctx, states, steps, k - 1);
    assert IsStep(ctx, states, steps, k - 1);
    StepLowersPotential(ctx, states[k-1], steps[k-1], states[k]);
  }

  // The bound: 5n(n+1) + 3n for the initial tasks, and one for each thread.
  function Bound(n: nat, threads: nat): nat {
    5 * n * (n + 1) + 3 * n + 1 + threads
  }

  lemma {:induction false} IdlePotential(n: nat, ws: seq<Worker>)
    requires forall v :: 0 <= v < |ws| ==> ws[v] == Worker(Idle, [])
    ensures WorkersPotential(n, ws) == |ws|
  {
    if ws == [] {
    } else {
      IdlePotential(n, ws[1..]);
    }
  }

  lemma InitialPotential(ctx: Context, s: State)
    requires Init(ctx, s)
    ensures Potential(ctx.n, s) <= Bound(ctx.n, |s.workers|)
  {
    var todo := s.workers[0].act.todo;
    IdlePotential(ctx.n, s.workers[1..]);
    if todo == [] {
    } else {
      assert todo[0] in todo;
      OrderedPotential(ctx.n, todo, 0, ctx.n, 1);
      TimesIsProduct(5 * ctx.n, ctx.n + 1);
    }
  }

  // In any run, with any number of threads and processes, the steps that are not
  // looking are bounded.
  lemma ProgressIsBounded(ctx: Context, states: seq<State>, steps: seq<Step>)
    requires IsExecution(ctx, states, steps)
    ensures Progress(states, steps, |steps|) <= Bound(ctx.n, |states[0].workers|)
  {
    ProgressLowers(ctx, states, steps, |steps|);
    InitialPotential(ctx, states[0]);
  }

  // Progress within three steps.

  ghost predicate Progresses(ctx: Context, states: seq<State>, steps: seq<Step>) {
    && IsPath(ctx, states, steps) && 1 <= |steps| <= 3
    && !IsLooking(states[|steps|-1], steps[|steps|-1])
  }

  lemma AtOnce(ctx: Context, s: State, step: Step, s': State) returns (states: seq<State>, steps: seq<Step>)
    requires Sized(ctx, s) && Next(ctx, s, step, s') && !IsLooking(s, step)
    ensures Progresses(ctx, states, steps) && states[0] == s && steps == [step]
  {
    PathAppend(ctx, [s], [], step, s');
    states, steps := [s] + [s'], [] + [step];
  }

  lemma AfterOne(ctx: Context, s: State, step: Step, s': State, states: seq<State>, steps: seq<Step>)
    returns (states': seq<State>, steps': seq<Step>)
    requires Sized(ctx, s) && Next(ctx, s, step, s')
    requires Progresses(ctx, states, steps) && states[0] == s' && |steps| <= 2
    ensures Progresses(ctx, states', steps') && states'[0] == s && |steps'| == |steps| + 1
  {
    PathAppend(ctx, [s], [], step, s');
    PathConcat(ctx, [s] + [s'], [] + [step], states, steps);
    states', steps' := [s] + [s'] + states[1..], [] + [step] + steps;
    assert states'[|steps|] == states[|steps|-1] && steps'[|steps|] == steps[|steps|-1];
  }

  // A thread that computes, inserts tasks, or holds a cluster and nothing to put back.
  predicate IsAtWork(worker: Worker) {
    worker.act.Busy? || worker.act.Solving? || worker.act.Emitting? || (worker.act.Refined? && worker.hand == [])
  }

  lemma WorkerProgresses(ctx: Context, s: State, w: nat) returns (states: seq<State>, steps: seq<Step>)
    requires Sized(ctx, s) && w < |s.workers| && WorkerOk(ctx, s.z, w, s.workers[w]) && IsAtWork(s.workers[w])
    ensures Progresses(ctx, states, steps) && states[0] == s && |steps| == 1 && steps[0].w == w
  {
    var act := s.workers[w].act;
    if act.Busy? {
      states, steps := AtOnce(ctx, s, Renew(w), SetAct(s, w, Refined(act.cl.(parent := Renewed))));
    } else if act.Refined? {
      var gap := seq(ctx.n, i => false);
      var ts := WholeSplit(ctx, gap, act.cl);
      states, steps := AtOnce(ctx, s, Split(w, gap, 1, ts), SetAct(s, w, Emitting(ts)));
    } else if act.Solving? {
      states, steps := SolverProgresses(ctx, s, w);
    } else if act.todo == [] {
      states, steps := AtOnce(ctx, s, EmitDone(w), SetAct(s, w, Idle));
    } else {
      var t := act.todo[0];
      assert t in act.todo;
      var s' := SetAct(s.(q := Push(s.q, t), z := Store(s.z, t)), w, Emitting(act.todo[1..]));
      states, steps := AtOnce(ctx, s, EmitNext(w), s');
    }
  }

  lemma SolverProgresses(ctx: Context, s: State, w: nat) returns (states: seq<State>, steps: seq<Step>)
    requires Sized(ctx, s) && w < |s.workers| && WorkerOk(ctx, s.z, w, s.workers[w]) && s.workers[w].act.Solving?
    ensures Progresses(ctx, states, steps) && states[0] == s && |steps| == 1 && steps[0].w == w
  {
    var act := s.workers[w].act;
    if act.next <= act.t.last {
      var s' := if ctx.iproc[act.next] != ctx.pid then SetAct(s, w, act.(next := act.next + 1))
                else SetAct(s.(z := s.z[ctx.zindex[act.next] := Vector(act.next)],
                               written := s.written[act.next := s.written[act.next] + 1]),
                            w, act.(next := act.next + 1, count := act.count + 1));
      states, steps := AtOnce(ctx, s, SolveNext(w), s');
    } else {
      states, steps := AtOnce(ctx, s, SolveDone(w), SetAct(s.(numLeft := s.numLeft - act.count), w, Idle));
    }
  }

  // An idle thread 0 with empty hands and something in the queues.
  lemma IdleProgresses(ctx: Context, s: State) returns (states: seq<State>, steps: seq<Step>)
    requires Inv(ctx, s) && s.workers[0] == Worker(Idle, []) && s.q != Queues([], [], [])
    requires (s.q.c != [] ==> s.q.c[0].depth < ctx.n) && (s.q.r != [] ==> s.q.r[0].depth < ctx.n)
    ensures Progresses(ctx, states, steps) && states[0] == s && |steps| <= 2
  {
    if s.q.s != [] {
      var t := s.q.s[0];
      states, steps := AtOnce(ctx, s, TakeS(0), SetAct(s.(q := s.q.(s := s.q.s[1..])), 0, Solving(t, t.first, 0)));
    } else if s.q.c != [] {
      var t := s.q.c[0];
      assert t in s.q.c;
      states, steps := AtOnce(ctx, s, TakeC(0), SetAct(s.(q := s.q.(c := s.q.c[1..])), 0, Busy(t)));
    } else {
      states, steps := TakerProgresses(ctx, s);
    }
  }

  lemma TakerProgresses(ctx: Context, s: State) returns (states: seq<State>, steps: seq<Step>)
    requires Inv(ctx, s) && s.workers[0] == Worker(Idle, []) && s.q.r != [] && s.q.r[0].depth < ctx.n
    ensures Progresses(ctx, states, steps) && states[0] == s && |steps| <= 2
  {
    var t := s.q.r[0];
    assert t in s.q.r;
    var s' := SetAct(s.(q := s.q.(r := s.q.r[1..])), 0, if t.waiting then Refined(t) else Busy(t));
    assert Next(ctx, s, TakeR(0), s');
    if t.waiting {
      var states1, steps1 := WorkerProgresses(ctx, s', 0);
      states, steps := AfterOne(ctx, s, TakeR(0), s', states1, steps1);
    } else {
      states, steps := AtOnce(ctx, s, TakeR(0), s');
    }
  }

  function AfterPutBack(s: State, w: nat): State
    requires w < |s.workers| && s.workers[w].hand != []
  {
    s.(q := s.q.(r := s.q.r + [s.workers[w].hand[0]]), workers := s.workers[w := Worker(s.workers[w].act, [])])
  }

  lemma PutBackKeepsInv(ctx: Context, s: State, w: nat)
    requires Inv(ctx, s) && w < |s.workers| && s.workers[w].hand != []
    ensures Next(ctx, s, PutBack(w), AfterPutBack(s, w)) && Inv(ctx, AfterPutBack(s, w))
  {
    StepKeepsInv(ctx, s, PutBack(w), AfterPutBack(s, w));
  }

  // No cluster in sight is too deep for the assertion of PMR_process_c_task.
  ghost predicate NoneTooDeep(ctx: Context, s: State) {
    && (forall t :: t in s.q.c || t in s.q.r ==> t.depth < ctx.n)
    && (forall v, t :: 0 <= v < |s.workers| && t in s.workers[v].hand ==> t.depth < ctx.n)
  }

  lemma PutBackKeepsDepth(ctx: Context, s: State, w: nat)
    requires Inv(ctx, s) && NoneTooDeep(ctx, s) && w < |s.workers| && s.workers[w].hand != []
    ensures NoneTooDeep(ctx, AfterPutBack(s, w))
  {
    var s' := AfterPutBack(s, w);
    assert s.workers[w].hand[0] in s.workers[w].hand;
    forall v, t | 0 <= v < |s'.workers| && t in s'.workers[v].hand ensures t.depth < ctx.n {
      assert v != w && t in s.workers[v].hand;
    }
  }

  // While the counter is positive some thread makes progress within three steps,
  // if the messages of the cluster it then holds have arrived, and no thread has
  // left. With ProgressIsBounded: a run in which threads do not look for ever
  // when they can make progress is finite.
  lemma ProgressIsReachable(ctx: Context, s: State) returns (states: seq<State>, steps: seq<Step>)
    requires Inv(ctx, s) && s.numLeft > 0 && NoneTooDeep(ctx, s)
    ensures Progresses(ctx, states, steps) && states[0] == s
    ensures forall w :: 0 <= w < |s.workers| ==> !s.workers[w].act.Exited?
  {
    if w :| 0 <= w < |s.workers| && IsAtWork(s.workers[w]) {
      assert WorkerOk(ctx, s.z, w, s.workers[w]);
      states, steps := WorkerProgresses(ctx, s, w);
    } else if w :| 0 <= w < |s.workers| && s.workers[w].act.Refined? {
      states, steps := HolderProgresses(ctx, s, w);
    } else {
      states, steps := AllIdleProgresses(ctx, s);
    }
  }

  lemma HolderProgresses(ctx: Context, s: State, w: nat) returns (states: seq<State>, steps: seq<Step>)
    requires Inv(ctx, s) && w < |s.workers| && s.workers[w].act.Refined? && s.workers[w].hand != []
    ensures Progresses(ctx, states, steps) && states[0] == s
  {
    PutBackKeepsInv(ctx, s, w);
    var s' := AfterPutBack(s, w);
    assert WorkerOk(ctx, s'.z, w, s'.workers[w]);
    states, steps := WorkerProgresses(ctx, s', w);
    states, steps := AfterOne(ctx, s, PutBack(w), s', states, steps);
  }

  lemma AllIdleProgresses(ctx: Context, s: State) returns (states: seq<State>, steps: seq<Step>)
    requires Inv(ctx, s) && s.numLeft > 0 && NoneTooDeep(ctx, s)
    requires forall v :: 0 <= v < |s.workers| ==> !IsAtWork(s.workers[v]) && !s.workers[v].act.Refined?
    ensures Progresses(ctx, states, steps) && states[0] == s
  {
    assert s.workers[0].act == Idle;
    if s.workers[0].hand != [] {
      states, steps := HandProgresses(ctx, s, 0);
    } else if s.q != Queues([], [], []) {
      states, steps := IdleProgresses(ctx, s);
    } else {
      var v := SomeHand(ctx, s);
      states, steps := HandProgresses(ctx, s, v);
    }
  }

  lemma HandProgresses(ctx: Context, s: State, v: nat) returns (states: seq<State>, steps: seq<Step>)
    requires Inv(ctx, s) && NoneTooDeep(ctx, s) && v < |s.workers| && s.workers[v].hand != []
    requires s.workers[0].act == Idle && (v == 0 || s.workers[0].hand == [])
    ensures Progresses(ctx, states, steps) && states[0] == s
  {
    PutBackKeepsInv(ctx, s, v);
    PutBackKeepsDepth(ctx, s, v);
    states, steps := IdleProgresses(ctx, AfterPutBack(s, v));
    states, steps := AfterOne(ctx, s, PutBack(v), AfterPutBack(s, v), states, steps);
  }

  // With empty queues and only idle threads the rest of the work is in some hand.
  lemma SomeHand(ctx: Context, s: State) returns (v: nat)
    requires Inv(ctx, s) && s.numLeft > 0 && s.q == Queues([], [], [])
    requires forall v :: 0 <= v < |s.workers| ==> s.workers[v].act == Idle
    ensures v < |s.workers| && s.workers[v].hand != []
  {
    if forall v :: 0 <= v < |s.workers| ==> s.workers[v].hand == [] {
      forall v | 0 <= v < |s.workers| ensures s.workers[v] == Worker(Idle, []) {
      }
      IdleMeansDone(ctx, s);
      assert false;
    }
    v :| 0 <= v < |s.workers| && s.workers[v].hand != [];
  }

  lemma IdleMeansDone(ctx: Context, s: State)
    requires Inv(ctx, s) && s.q == Queues([], [], [])
    requires forall v :: 0 <= v < |s.workers| ==> s.workers[v] == Worker(Idle, [])
    ensures s.numLeft <= 0
  {
    IdleUncounted(s.workers);
    if i :| i in Unwritten(ctx, s.written) {
      IdleWeight(At(i), s.workers);
    }
  }

  // One process alone.

  lemma NotShared(ctx: Context, t: Task)
    requires ctx.nproc == 1 && IsLive(ctx, t)
    ensures !Shared(t)
  {
    if t.Cluster? {
      assert IsSpan(ctx.iproc, t.first, t.last, t.leftPid, t.rightPid);
    }
  }

  // On one process no cluster is shared, so the r-queue and all hands are empty.
  lemma NothingIsShared(ctx: Context, z: seq<Column>, q: Queues)
    requires ctx.nproc == 1 && QueuesOk(ctx, z, q)
    ensures q.r == []
  {
    if q.r != [] {
      assert q.r[0] in q.r;
      NotShared(ctx, q.r[0]);
    }
  }

  lemma HandIsEmpty(ctx: Context, z: seq<Column>, w: nat, worker: Worker)
    requires ctx.nproc == 1 && WorkerOk(ctx, z, w, worker)
    ensures worker.hand == []
    ensures worker.act.Refined? ==> !Shared(worker.act.cl)
  {
    if worker.hand != [] {
      assert worker.hand[0] in worker.hand;
      NotShared(ctx, worker.hand[0]);
    }
    if worker.act.Refined? {
      NotShared(ctx, worker.act.cl);
    }
  }

  lemma NoLookingAlone(ctx: Context, states: seq<State>, steps: seq<Step>, k: nat)
    requires IsExecution(ctx, states, steps) && ctx.nproc == 1 && k < |steps|
    ensures !IsLooking(states[k], steps[k])
  {
    RunKeepsInv(ctx, states, steps, k);
    assert IsStep(ctx, states, steps, k);
    var s, w := states[k], steps[k].w;
    assert WorkerOk(ctx, s.z, w, s.workers[w]);
    HandIsEmpty(ctx, s.z, w, s.workers[w]);
    NothingIsShared(ctx, s.z, s.q);
  }

  lemma {:induction false} AllProgressAlone(ctx: Context, states: seq<State>, steps: seq<Step>, k: nat)
    requires IsExecution(ctx, states, steps) && ctx.nproc == 1 && k <= |steps|
    ensures Progress(states, steps, k) == k
  {
    if k == 0 {
    } else {
      AllProgressAlone(ctx, states, steps, k - 1);
      NoLookingAlone(ctx, states, steps, k - 1);
    }
  }

  // On one process, with any number of threads, every run is finite ...
  lemma RunAloneIsFinite(ctx: Context, states: seq<State>, steps: seq<Step>)
    requires IsExecution(ctx, states, steps) && ctx.nproc == 1
    ensures |steps| <= Bound(ctx.n, |states[0].workers|)
  {
    AllProgressAlone(ctx, states, steps, |steps|);
    ProgressIsBounded(ctx, states, steps);
  }

  ghost predicate IsStuck(ctx: Context, s: State)
    requires Sized(ctx, s)
  {
    forall step, s' :: !Next(ctx, s, step, s')
  }

  // ... and one that cannot go on has computed everything, or it has stopped at
  // the assertion that guards against infinitely deep trees.
  lemma StuckAloneIsDone(ctx: Context, states: seq<State>, steps: seq<Step>)
    requires IsExecution(ctx, states, steps) && ctx.nproc == 1
    requires Sized(ctx, states[|steps|]) && IsStuck(ctx, states[|steps|])
    ensures var s := states[|steps|];
            AllDone(ctx, s) || (s.q.c != [] && ctx.n <= s.q.c[0].depth)
  {
    var s := states[|steps|];
    RunKeepsInv(ctx, states, steps, |steps|);
    if s.numLeft <= 0 {
      DrainedIsDone(ctx, s);
    } else if s.q.c == [] || s.q.c[0].depth < ctx.n {
      var path, ps := AloneProgresses(ctx, s);
      PathIsNotStuck(ctx, path, ps);
    }
  }

  lemma PathIsNotStuck(ctx: Context, states: seq<State>, steps: seq<Step>)
    requires IsPath(ctx, states, steps) && steps != [] && Sized(ctx, states[0])
    ensures !IsStuck(ctx, states[0])
  {
    assert IsStep(ctx, states, steps, 0);
  }

  lemma AloneProgresses(ctx: Context, s: State) returns (states: seq<State>, steps: seq<Step>)
    requires Inv(ctx, s) && ctx.nproc == 1 && s.numLeft > 0 && (s.q.c != [] ==> s.q.c[0].depth < ctx.n)
    ensures Progresses(ctx, states, steps) && states[0] == s
  {
    NothingIsShared(ctx, s.z, s.q);
    forall w | 0 <= w < |s.workers| ensures s.workers[w].hand == [] {
      assert WorkerOk(ctx, s.z, w, s.workers[w]);
      HandIsEmpty(ctx, s.z, w, s.workers[w]);
    }
    if w :| 0 <= w < |s.workers| && IsAtWork(s.workers[w]) {
      assert WorkerOk(ctx, s.z, w, s.workers[w]);
      states, steps := WorkerProgresses(ctx, s, w);
    } else {
      forall v | 0 <= v < |s.workers| ensures s.workers[v] == Worker(Idle, []) {
        assert !s.workers[v].act.Exited?;
      }
      if s.q == Queues([], [], []) {
        IdleMeansDone(ctx, s);
      }
      states, steps := IdleProgresses(ctx, s);
    }
  }
}
