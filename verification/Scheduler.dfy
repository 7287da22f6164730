// The task scheduler of one process as a state machine: the worker threads of
// empty_workQ, the three queues, the counter num_left and the columns of Z.
//
// A step is one thread doing one thing to the shared state, so a run is any
// interleaving of the threads. Thread 0 starts in the middle of init_workQ, with
// the tasks it has yet to insert; the other threads are already running.
module Scheduler {
  import opened Tasks
  import opened Subtasks

  // What a thread is doing: looking for a task; holding a cluster whose new
  // representation it has not computed yet; holding a cluster that is refined;
  // computing eigenvectors, `next` being the next index and `count` the number
  // computed so far; inserting tasks; or gone.
  datatype Activity =
    | Idle
    | Busy(cl: Task)
    | Refined(cl: Task)
    | Solving(t: Task, next: nat, count: nat)
    | Emitting(todo: seq<Task>)
    | Exited

  // hand holds a cluster taken from the r-queue only to be put back.
  datatype Worker = Worker(act: Activity, hand: seq<Task>)

  datatype State = State(q: Queues, workers: seq<Worker>, z: seq<Column>, numLeft: int, written: seq<nat>)

  datatype Step =
    | TakeS(w: nat)
    | TakeC(w: nat)
    | TakeR(w: nat)
    | Renew(w: nat)
    | Requeue(w: nat)
    | Split(w: nat, gap: seq<bool>, maxSize: nat, ts: seq<Task>)
    | EmitNext(w: nat)
    | EmitDone(w: nat)
    | SolveNext(w: nat)
    | SolveDone(w: nat)
    | PickUp(w: nat)
    | PutBack(w: nat)
    | Exit(w: nat)

  // A task as init_workQ creates it.
  ghost predicate IsRoot(ctx: Context, t: Task) {
    && t.depth == 1
    && IsLive(ctx, t)
    && (t.Cluster? ==> t.parent == Root && !t.waiting)
  }

  ghost predicate Init(ctx: Context, s: State) {
    && Valid(ctx)
    && 0 < |s.workers|
    && s.workers[0].act.Emitting?
    && Covers(ctx, s.workers[0].act.todo, 0, ctx.n)
    && (forall t :: t in s.workers[0].act.todo ==> IsRoot(ctx, t))
    && (forall v :: 0 < v < |s.workers| ==> s.workers[v].act == Idle)
    && (forall v :: 0 <= v < |s.workers| ==> s.workers[v].hand == [])
    && s.q == Queues([], [], [])
    && |s.z| == ctx.nz
    && s.numLeft == ctx.nz
    && |s.written| == ctx.n && forall i :: 0 <= i < ctx.n ==> s.written[i] == 0
  }

  function SetAct(s: State, w: nat, act: Activity): State
    requires w < |s.workers|
  {
    s.(workers := s.workers[w := s.workers[w].(act := act)])
  }

  // One turn of the loop of PMR_process_s_task.
  ghost predicate Solves(ctx: Context, s: State, w: nat, s': State)
    requires Valid(ctx) && |s.z| == ctx.nz && |s.written| == ctx.n && w < |s.workers|
  {
    var act := s.workers[w].act;
    && act.Solving? && act.next <= act.t.last < ctx.n
    && s' == if ctx.iproc[act.next] != ctx.pid then SetAct(s, w, act.(next := act.next + 1))
             else SetAct(s.(z := s.z[ctx.zindex[act.next] := Vector(act.next)],
                            written := s.written[act.next := s.written[act.next] + 1]),
                         w, act.(next := act.next + 1, count := act.count + 1))
  }

  ghost predicate Next(ctx: Context, s: State, step: Step, s': State)
    requires Valid(ctx) && |s.z| == ctx.nz && |s.written| == ctx.n
  {
    && step.w < |s.workers|
    && var w := step.w;
       var act, hand := s.workers[w].act, s.workers[w].hand;
       match step
       case TakeS(_) =>
         && act == Idle && hand == [] && s.q.s != []
         && s' == SetAct(s.(q := s.q.(s := s.q.s[1..])), w, Solving(s.q.s[0], s.q.s[0].first, 0))
       case TakeC(_) =>
         && act == Idle && hand == [] && s.q.c != [] && s.q.c[0].depth < ctx.n
         && s' == SetAct(s.(q := s.q.(c := s.q.c[1..])), w, Busy(s.q.c[0]))
       case TakeR(_) =>
         && act == Idle && hand == [] && s.q.r != [] && s.q.r[0].depth < ctx.n
         && (ctx.funneled ==> w == 0)
         && s.q.r[0].Cluster?
         && s' == SetAct(s.(q := s.q.(r := s.q.r[1..])), w,
                         if s.q.r[0].waiting then Refined(s.q.r[0]) else Busy(s.q.r[0]))
       case Renew(_) =>
         && act.Busy? && act.cl.Cluster?
         && s' == SetAct(s, w, Refined(act.cl.(parent := Renewed)))
       case Requeue(_) =>
         && act.Refined? && hand == [] && Shared(act.cl)
         && s' == SetAct(s.(q := s.q.(r := s.q.r + [act.cl.(waiting := true)])), w, Idle)
       case Split(_, gap, maxSize, ts) =>
         && act.Refined? && hand == []
         && IsCluster(ctx, act.cl) && |gap| == ctx.n && IsSplit(ctx, gap, act.cl, maxSize, ts)
         && s' == SetAct(s, w, Emitting(ts))
       case EmitNext(_) =>
         && act.Emitting? && act.todo != [] && Fits(act.todo[0], ctx.nz)
         && s' == SetAct(s.(q := Push(s.q, act.todo[0]), z := Store(s.z, act.todo[0])), w, Emitting(act.todo[1..]))
       case EmitDone(_) =>
         && act.Emitting? && act.todo == []
         && s' == SetAct(s, w, Idle)
       case SolveNext(_) => Solves(ctx, s, w, s')
       case SolveDone(_) =>
         && act.Solving? && act.next > act.t.last
         && s' == SetAct(s.(numLeft := s.numLeft - act.count), w, Idle)
       case PickUp(_) =>
         && (act == Idle || act.Refined?) && hand == [] && s.q.r != []
         && s' == s.(q := s.q.(r := s.q.r[1..]), workers := s.workers[w := Worker(act, [s.q.r[0]])])
       case PutBack(_) =>
         && hand != []
         && s' == s.(q := s.q.(r := s.q.r + [hand[0]]), workers := s.workers[w := Worker(act, [])])
       case Exit(_) =>
         && act == Idle && hand == [] && s.numLeft <= 0
         && s' == SetAct(s, w, Exited)
  }

  // Additive measures of the live tasks: how many of them contain index i, or
  // how much work they stand for at most.

  datatype Measure = At(i: int) | Cost(n: nat)

  function Weight(m: Measure, t: Task): nat {
    match m
    case At(i) => if Contains(t, i) then 1 else 0
    case Cost(n) => if t.first <= t.last && t.depth <= n then Times(t.last - t.first + 1, n + 1 - t.depth) else 0
  }

  // a * k, as repeated addition.
  function Times(a: nat, k: nat): nat {
    if k == 0 then 0 else Times(a, k - 1) + a
  }

  function Sum(m: Measure, ts: seq<Task>): nat {
    if ts == [] then 0 else Weight(m, ts[0]) + Sum(m, ts[1..])
  }

  function ActWeight(m: Measure, act: Activity): nat {
    match act
    case Idle => 0
    case Exited => 0
    case Busy(cl) => Weight(m, cl)
    case Refined(cl) => Weight(m, cl)
    case Solving(t, next, _) => if m.At? then (if next <= m.i <= t.last then 1 else 0) else Weight(m, t)
    case Emitting(todo) => Sum(m, todo)
  }

  function WorkerWeight(m: Measure, worker: Worker): nat {
    ActWeight(m, worker.act) + Sum(m, worker.hand)
  }

  function WorkersWeight(m: Measure, ws: seq<Worker>): nat {
    if ws == [] then 0 else WorkerWeight(m, ws[0]) + WorkersWeight(m, ws[1..])
  }

  function Live(m: Measure, s: State): nat {
    Sum(m, s.q.s) + Sum(m, s.q.c) + Sum(m, s.q.r) + WorkersWeight(m, s.workers)
  }

  // Eigenvectors computed by threads that have not yet decremented the counter.
  function Uncounted(ws: seq<Worker>): nat {
    if ws == [] then 0 else (if ws[0].act.Solving? then ws[0].act.count else 0) + Uncounted(ws[1..])
  }

  lemma {:induction false} SumAppend(m: Measure, ts: seq<Task>, us: seq<Task>)
    ensures Sum(m, ts + us) == Sum(m, ts) + Sum(m, us)
  {
    if ts == [] {
      assert ts + us == us;
    } else {
      assert (ts + us)[1..] == ts[1..] + us;
      SumAppend(m, ts[1..], us);
    }
  }

  lemma SumPush(m: Measure, ts: seq<Task>, t: Task)
    ensures Sum(m, ts + [t]) == Sum(m, ts) + Weight(m, t)
  {
    SumAppend(m, ts, [t]);
    assert [t][1..] == [];
  }

  lemma {:induction false} SumMember(m: Measure, ts: seq<Task>, t: Task)
    requires t in ts
    ensures Weight(m, t) <= Sum(m, ts)
  {
    if t != ts[0] {
      SumMember(m, ts[1..], t);
    }
  }

  lemma {:induction false} WorkersUpdate(m: Measure, ws: seq<Worker>, w: nat, worker: Worker)
    requires w < |ws|
    ensures WorkersWeight(m, ws[w := worker]) + WorkerWeight(m, ws[w]) == WorkersWeight(m, ws) + WorkerWeight(m, worker)
  {
    if w > 0 {
      assert ws[w := worker][1..] == ws[1..][w-1 := worker];
      WorkersUpdate(m, ws[1..], w - 1, worker);
    } else {
      assert ws[w := worker][1..] == ws[1..];
    }
  }

  lemma {:induction false} UncountedUpdate(ws: seq<Worker>, w: nat, worker: Worker)
    requires w < |ws|
    ensures Uncounted(ws[w := worker]) + Uncounted([ws[w]]) == Uncounted(ws) + Uncounted([worker])
  {
    if w > 0 {
      assert ws[w := worker][1..] == ws[1..][w-1 := worker];
      UncountedUpdate(ws[1..], w - 1, worker);
    } else {
      assert ws[w := worker][1..] == ws[1..];
    }
  }

  lemma {:induction false} WorkersAtLeast(m: Measure, ws: seq<Worker>, w: nat)
    requires w < |ws|
    ensures WorkerWeight(m, ws[w]) <= WorkersWeight(m, ws)
  {
    if w == 0 {
    } else {
      WorkersAtLeast(m, ws[1..], w - 1);
    }
  }

  lemma {:induction false} WorkersAtLeastTwo(m: Measure, ws: seq<Worker>, v: nat, w: nat)
    requires v < w < |ws|
    ensures WorkerWeight(m, ws[v]) + WorkerWeight(m, ws[w]) <= WorkersWeight(m, ws)
  {
    if v > 0 {
      WorkersAtLeastTwo(m, ws[1..], v - 1, w - 1);
    } else {
      WorkersAtLeast(m, ws[1..], w - 1);
    }
  }

  // The invariant.

  // A task anywhere in the scheduler: it contains an index of the process, and
  // its scratch columns are those of two of its own indices.
  ghost predicate IsLive(ctx: Context, t: Task) {
    && t.first <= t.last < |ctx.iproc|
    && 1 <= t.depth <= ctx.n
    && Involved(ctx.iproc, ctx.pid, t.first, t.last)
    && (t.Cluster? ==> IsCluster(ctx, t))
    && (UsesColumns(t) ==> exists x :: HasScratch(ctx, t, x))
  }

  ghost predicate HasScratch(ctx: Context, t: Task, x: int)
    requires UsesColumns(t)
  {
    && t.first <= x < t.last < |ctx.iproc| == |ctx.zindex|
    && Owns(ctx, x) && Owns(ctx, x + 1)
    && t.parent.dCol == ctx.zindex[x] && t.parent.lCol == ctx.zindex[x+1]
  }

  // The stored parent representation of t is intact.
  ghost predicate Intact(z: seq<Column>, t: Task) {
    UsesColumns(t) ==>
      && t.parent.dCol < |z| && t.parent.lCol < |z|
      && z[t.parent.dCol] == DPart(t.first, t.last, t.depth)
      && z[t.parent.lCol] == LPart(t.first, t.last, t.depth)
  }

  ghost predicate Queued(ctx: Context, z: seq<Column>, t: Task) {
    IsLive(ctx, t) && Intact(z, t) && (t.Cluster? && t.waiting ==> t.parent == Renewed)
  }

  ghost predicate QueuesOk(ctx: Context, z: seq<Column>, q: Queues) {
    && (forall t :: t in q.s ==> t.Singletons? && Queued(ctx, z, t))
    && (forall t :: t in q.c ==> t.Cluster? && !Shared(t) && !t.waiting && Queued(ctx, z, t))
    && (forall t :: t in q.r ==> Shared(t) && Queued(ctx, z, t))
  }

  ghost predicate WorkerOk(ctx: Context, z: seq<Column>, w: nat, worker: Worker) {
    && |worker.hand| <= 1
    && (forall t :: t in worker.hand ==> Shared(t) && Queued(ctx, z, t))
    && (worker.hand != [] ==> worker.act.Idle? || worker.act.Refined?)
    && match worker.act
       case Idle => true
       case Exited => true
       case Busy(cl) =>
         && cl.Cluster? && !cl.waiting && cl.depth < ctx.n && Queued(ctx, z, cl)
         && (ctx.funneled && Shared(cl) ==> w == 0)
       case Refined(cl) =>
         && cl.Cluster? && cl.parent == Renewed && cl.depth < ctx.n && IsLive(ctx, cl)
         && (ctx.funneled && Shared(cl) ==> w == 0)
       case Solving(t, next, _) =>
         t.Singletons? && IsLive(ctx, t) && t.first <= next <= t.last + 1
       case Emitting(todo) =>
         forall t :: t in todo ==> IsLive(ctx, t) && Fits(t, ctx.nz) && (t.Cluster? ==> !t.waiting)
  }

  ghost predicate WorkersOk(ctx: Context, s: State) {
    && (forall w :: 0 <= w < |s.workers| ==> WorkerOk(ctx, s.z, w, s.workers[w]))
    && (forall w :: 0 <= w < |s.workers| && s.workers[w].act == Exited ==> s.numLeft <= 0)
  }

  // Every owned index is written once or lies in exactly one live task, never both.
  ghost predicate Conserved(ctx: Context, s: State)
    requires |s.written| == |ctx.iproc|
  {
    && (forall i :: Live(At(i), s) <= 1)
    && (forall i :: 0 <= i < |ctx.iproc| && Owns(ctx, i) ==> s.written[i] + Live(At(i), s) == 1)
    && (forall i :: 0 <= i < |ctx.iproc| && !Owns(ctx, i) ==> s.written[i] == 0)
  }

  ghost function Unwritten(ctx: Context, written: seq<nat>): set<int>
    requires |written| == |ctx.iproc|
  {
    set i | 0 <= i < |ctx.iproc| && Owns(ctx, i) && written[i] == 0
  }

  ghost predicate Finished(ctx: Context, s: State)
    requires Valid(ctx) && |s.written| == |ctx.iproc| && |s.z| == ctx.nz
  {
    forall i :: 0 <= i < |ctx.iproc| && Owns(ctx, i) && s.written[i] > 0 ==> s.z[ctx.zindex[i]] == Vector(i)
  }

  ghost predicate Inv(ctx: Context, s: State) {
    && Valid(ctx)
    && |s.z| == ctx.nz && |s.written| == ctx.n && 0 < |s.workers|
    && QueuesOk(ctx, s.z, s.q)
    && WorkersOk(ctx, s)
    && Conserved(ctx, s)
    && s.numLeft == |Unwritten(ctx, s.written)| + Uncounted(s.workers)
    && Finished(ctx, s)
  }
}
