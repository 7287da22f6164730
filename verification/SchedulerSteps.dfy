// Every step of the scheduler keeps its invariant.
module SchedulerSteps {
  import opened Integers
  import opened Scheduler
  import opened Subtasks
  import opened Tasks

  // How each step changes an additive measure of the live tasks.

  lemma SetWorkerWeight(m: Measure, s: State, w: nat, worker: Worker)
    requires w < |s.workers|
    ensures WorkersWeight(m, s.workers[w := worker]) + WorkerWeight(m, s.workers[w])
            == WorkersWeight(m, s.workers) + WorkerWeight(m, worker)
  {
    WorkersUpdate(m, s.workers, w, worker);
  }

  lemma SumOfOne(m: Measure, t: Task)
    ensures Sum(m, [t]) == Weight(m, t) && Sum(m, []) == 0
  {
    assert [t][1..] == [];
  }

  predicate KeepsTasks(step: Step) {
    !step.Split? && !step.SolveNext? && !step.SolveDone?
  }

  ghost predicate Sized(ctx: Context, s: State) {
    Valid(ctx) && |s.z| == ctx.nz && |s.written| == ctx.n
  }

  // steps[k] leads from states[k] to states[k+1].
  ghost predicate IsPath(ctx: Context, states: seq<State>, steps: seq<Step>) {
    && |states| == |steps| + 1
    && forall k :: 0 <= k < |steps| ==> IsStep(ctx, states, steps, k)
  }

  ghost predicate IsStep(ctx: Context, states: seq<State>, steps: seq<Step>, k: nat)
    requires k < |steps| == |states| - 1
  {
    Sized(ctx, states[k]) && Next(ctx, states[k], steps[k], states[k+1])
  }

  lemma PathAppend(ctx: Context, states: seq<State>, steps: seq<Step>, step: Step, s: State)
    requires IsPath(ctx, states, steps) && Sized(ctx, states[|steps|]) && Next(ctx, states[|steps|], step, s)
    ensures IsPath(ctx, states + [s], steps + [step])
  {
    var states', steps' := states + [s], steps + [step];
    forall k | 0 <= k < |steps'| ensures IsStep(ctx, states', steps', k) {
      if k < |steps| {
        assert IsStep(ctx, states, steps, k);
        assert states'[k] == states[k] && states'[k+1] == states[k+1] && steps'[k] == steps[k];
      } else {
        assert states'[k] == states[|steps|] && states'[k+1] == s && steps'[k] == step;
      }
    }
  }

  lemma PathPrefix(ctx: Context, states: seq<State>, steps: seq<Step>)
    requires IsPath(ctx, states, steps) && steps != []
    ensures IsPath(ctx, states[..|steps|], steps[..|steps|-1])
  {
    var n := |steps| - 1;
    var states', steps' := states[..n+1], steps[..n];
    forall k | 0 <= k < n ensures IsStep(ctx, states', steps', k) {
      assert IsStep(ctx, states, steps, k);
    }
  }

  lemma {:induction false} PathConcat(ctx: Context, states: seq<State>, steps: seq<Step>, states': seq<State>,
                                      steps': seq<Step>)
    requires IsPath(ctx, states, steps) && IsPath(ctx, states', steps') && states[|steps|] == states'[0]
    ensures IsPath(ctx, states + states'[1..], steps + steps')
    ensures (states + states'[1..])[|steps + steps'|] == states'[|steps'|]
    ensures (states + states'[1..])[0] == states[0]
    decreases |steps'|
  {
    if steps' == [] {
      assert states + states'[1..] == states && steps + steps' == steps;
    } else {
      var n := |steps'| - 1;
      PathPrefix(ctx, states', steps');
      PathConcat(ctx, states, steps, states'[..n+1], steps'[..n]);
      assert IsStep(ctx, states', steps', n);
      PathAppend(ctx, states + states'[..n+1][1..], steps + steps'[..n], steps'[n], states'[n+1]);
      assert states + states'[..n+1][1..] + [states'[n+1]] == states + states'[1..];
      assert (steps + steps'[..n]) + [steps'[n]] == steps + steps';
    }
  }

  // Steps that only move tasks around change no measure.
  lemma MovingKeepsLive(ctx: Context, s: State, step: Step, s': State, m: Measure)
    requires Sized(ctx, s)
    requires step.w < |s.workers| && |s.workers[step.w].hand| <= 1
    requires Next(ctx, s, step, s') && KeepsTasks(step)
    ensures Live(m, s') == Live(m, s)
  {
    if step.EmitNext? {
      EmittingKeepsLive(ctx, s, step, s', m);
    } else if step.Requeue? || step.PickUp? || step.PutBack? {
      RotatingKeepsLive(ctx, s, step, s', m);
    } else {
      TakingKeepsLive(ctx, s, step, s', m);
    }
  }

  lemma TakingKeepsLive(ctx: Context, s: State, step: Step, s': State, m: Measure)
    requires Sized(ctx, s)
    requires Next(ctx, s, step, s') && KeepsTasks(step)
    requires !step.EmitNext? && !step.Requeue? && !step.PickUp? && !step.PutBack?
    ensures Live(m, s') == Live(m, s)
  {
    SetWorkerWeight(m, s, step.w, s'.workers[step.w]);
  }

  lemma RotatingKeepsLive(ctx: Context, s: State, step: Step, s': State, m: Measure)
    requires Sized(ctx, s)
    requires step.w < |s.workers| && |s.workers[step.w].hand| <= 1
    requires Next(ctx, s, step, s') && (step.Requeue? || step.PickUp? || step.PutBack?)
    ensures Live(m, s') == Live(m, s)
  {
    if step.Requeue? {
      RequeueKeepsLive(ctx, s, step, s', m);
    } else if step.PickUp? {
      SetWorkerWeight(m, s, step.w, s'.workers[step.w]);
      SumOfOne(m, s.q.r[0]);
    } else {
      PutBackKeepsLive(ctx, s, step, s', m);
    }
  }

  lemma RequeueKeepsLive(ctx: Context, s: State, step: Step, s': State, m: Measure)
    requires Sized(ctx, s) && Next(ctx, s, step, s') && step.Requeue?
    ensures Live(m, s') == Live(m, s)
  {
    SetWorkerWeight(m, s, step.w, s'.workers[step.w]);
    SumPush(m, s.q.r, s.workers[step.w].act.cl.(waiting := true));
  }

  lemma PutBackKeepsLive(ctx: Context, s: State, step: Step, s': State, m: Measure)
    requires Sized(ctx, s) && Next(ctx, s, step, s') && step.PutBack? && |s.workers[step.w].hand| <= 1
    ensures Live(m, s') == Live(m, s)
  {
    var t := s.workers[step.w].hand[0];
    assert s.workers[step.w].hand == [t];
    SetWorkerWeight(m, s, step.w, s'.workers[step.w]);
    SumOfOne(m, t);
    SumPush(m, s.q.r, t);
  }

  lemma EmittingKeepsLive(ctx: Context, s: State, step: Step, s': State, m: Measure)
    requires Sized(ctx, s)
    requires step.w < |s.workers| && Next(ctx, s, step, s') && step.EmitNext?
    ensures Live(m, s') == Live(m, s)
  {
    SetWorkerWeight(m, s, step.w, s'.workers[step.w]);
    EmittingKeepsSums(m, s.q, s.workers[step.w].act.todo[0]);
  }

  lemma EmittingKeepsSums(m: Measure, q: Queues, t: Task)
    ensures var q' := Push(q, t);
            Sum(m, q'.s) + Sum(m, q'.c) + Sum(m, q'.r) == Sum(m, q.s) + Sum(m, q.c) + Sum(m, q.r) + Weight(m, t)
  {
    SumPush(m, q.s, t);
    SumPush(m, q.c, t);
    SumPush(m, q.r, t);
  }

  lemma SplittingKeepsLive(ctx: Context, s: State, step: Step, s': State, i: int)
    requires Sized(ctx, s) && Next(ctx, s, step, s') && step.Split?
    ensures Live(At(i), s') <= Live(At(i), s)
    ensures Owns(ctx, i) ==> Live(At(i), s') == Live(At(i), s)
  {
    var cl, ts := s.workers[step.w].act.cl, step.ts;
    SetWorkerWeight(At(i), s, step.w, s'.workers[step.w]);
    CoverCount(ctx, ts, cl.first, cl.last + 1, i);
  }

  // In a covering list an owned index counts once, any other at most once, and
  // no index outside the covered interval counts.
  lemma CoverCount(ctx: Context, ts: seq<Task>, lo: nat, hi: nat, i: int)
    requires Covers(ctx, ts, lo, hi)
    ensures Sum(At(i), ts) <= if lo <= i < hi then 1 else 0
    ensures lo <= i < hi && Owns(ctx, i) ==> Sum(At(i), ts) == 1
  {
    OrderedCount(ts, lo, hi, i);
    if lo <= i < hi && Owns(ctx, i) {
      assert Covered(ts, i);
      var a :| 0 <= a < |ts| && Contains(ts[a], i);
      SumMember(At(i), ts, ts[a]);
    }
  }

  lemma InOrderRest(ts: seq<Task>, lo: nat, hi: nat)
    requires InOrder(ts, lo, hi) && ts != []
    ensures lo <= ts[0].first <= ts[0].last < hi
    ensures InOrder(ts[1..], ts[0].last + 1, hi)
  {
    var us, us0 := ts[1..], ts[0].last + 1;
    assert Within(ts, 0, lo, hi);
    forall a | 0 <= a < |us| ensures Within(us, a, us0, hi) {
      assert Within(ts, a + 1, lo, hi) && Before(ts, 0, a + 1);
    }
    forall a, b | 0 <= a < b < |us| ensures Before(us, a, b) {
      assert Before(ts, a + 1, b + 1);
    }
  }

  lemma {:induction false} OrderedCount(ts: seq<Task>, lo: nat, hi: nat, i: int)
    requires InOrder(ts, lo, hi)
    ensures Sum(At(i), ts) <= if lo <= i < hi then 1 else 0
  {
    if ts == [] {
    } else {
      InOrderRest(ts, lo, hi);
      OrderedCount(ts[1..], ts[0].last + 1, hi, i);
    }
  }

  // Exclusive ownership: what one thread holds, nobody else holds.

  lemma Exclusive(q: Queues, ws: seq<Worker>, w: nat, x: int)
    requires Sum(At(x), q.s) + Sum(At(x), q.c) + Sum(At(x), q.r) + WorkersWeight(At(x), ws) <= 1
    requires w < |ws| && 1 <= WorkerWeight(At(x), ws[w])
    ensures forall t :: t in q.s || t in q.c || t in q.r ==> !Contains(t, x)
    ensures forall v :: 0 <= v < |ws| && v != w ==> WorkerWeight(At(x), ws[v]) == 0
  {
    WorkersAtLeast(At(x), ws, w);
    forall t | t in q.s || t in q.c || t in q.r ensures !Contains(t, x) {
      if t in q.s { SumMember(At(x), q.s, t); }
      if t in q.c { SumMember(At(x), q.c, t); }
      if t in q.r { SumMember(At(x), q.r, t); }
    }
    forall v | 0 <= v < |ws| && v != w ensures WorkerWeight(At(x), ws[v]) == 0 {
      if v < w { WorkersAtLeastTwo(At(x), ws, v, w); } else { WorkersAtLeastTwo(At(x), ws, w, v); }
    }
  }

  lemma IntactAfterWrite(ctx: Context, z: seq<Column>, t: Task, x: int, col: Column)
    requires Valid(ctx) && |z| == ctx.nz && Owns(ctx, x)
    requires IsLive(ctx, t) && Intact(z, t) && !Contains(t, x)
    ensures Intact(z[ctx.zindex[x] := col], t)
  {
    if UsesColumns(t) {
      var y :| HasScratch(ctx, t, y);
    }
  }

  // A thread that writes the column of an index it holds disturbs no stored
  // representation outside its own task.
  lemma WriteKeepsOthers(ctx: Context, z: seq<Column>, q: Queues, ws: seq<Worker>, w: nat, x: int, col: Column)
    requires Valid(ctx) && |z| == ctx.nz && Owns(ctx, x)
    requires Sum(At(x), q.s) + Sum(At(x), q.c) + Sum(At(x), q.r) + WorkersWeight(At(x), ws) <= 1
    requires w < |ws| && 1 <= WorkerWeight(At(x), ws[w])
    requires QueuesOk(ctx, z, q)
    requires forall v :: 0 <= v < |ws| && v != w ==> WorkerOk(ctx, z, v, ws[v])
    ensures QueuesOk(ctx, z[ctx.zindex[x] := col], q)
    ensures forall v :: 0 <= v < |ws| && v != w ==> WorkerOk(ctx, z[ctx.zindex[x] := col], v, ws[v])
  {
    Exclusive(q, ws, w, x);
    var z' := z[ctx.zindex[x] := col];
    WriteKeepsQueues(ctx, z, q, x, col);
    forall v | 0 <= v < |ws| && v != w ensures WorkerOk(ctx, z', v, ws[v]) {
      WriteKeepsWorker(ctx, z, v, ws[v], x, col);
    }
  }

  lemma WriteKeepsQueues(ctx: Context, z: seq<Column>, q: Queues, x: int, col: Column)
    requires Valid(ctx) && |z| == ctx.nz && Owns(ctx, x)
    requires QueuesOk(ctx, z, q)
    requires forall t :: t in q.s || t in q.c || t in q.r ==> !Contains(t, x)
    ensures QueuesOk(ctx, z[ctx.zindex[x] := col], q)
  {
    forall t | t in q.s || t in q.c || t in q.r ensures Queued(ctx, z[ctx.zindex[x] := col], t) {
      IntactAfterWrite(ctx, z, t, x, col);
    }
  }

  lemma WriteKeepsWorker(ctx: Context, z: seq<Column>, v: nat, worker: Worker, x: int, col: Column)
    requires Valid(ctx) && |z| == ctx.nz && Owns(ctx, x)
    requires WorkerOk(ctx, z, v, worker) && WorkerWeight(At(x), worker) == 0
    ensures WorkerOk(ctx, z[ctx.zindex[x] := col], v, worker)
  {
    forall t | t in worker.hand ensures Intact(z[ctx.zindex[x] := col], t) {
      SumMember(At(x), worker.hand, t);
      IntactAfterWrite(ctx, z, t, x, col);
    }
    if worker.act.Busy? {
      IntactAfterWrite(ctx, z, worker.act.cl, x, col);
    }
  }

  lemma WriteKeepsFinished(ctx: Context, s: State, w: nat, x: int, col: Column)
    requires Sized(ctx, s)
    requires Owns(ctx, x) && Conserved(ctx, s) && Finished(ctx, s)
    requires w < |s.workers| && 1 <= WorkerWeight(At(x), s.workers[w])
    ensures s.written[x] == 0
    ensures Finished(ctx, s.(z := s.z[ctx.zindex[x] := col]))
  {
    WorkersAtLeast(At(x), s.workers, w);
  }

  lemma WriteFinishes(ctx: Context, s: State, w: nat, x: int)
    requires Sized(ctx, s) && Owns(ctx, x) && Conserved(ctx, s) && Finished(ctx, s)
    requires w < |s.workers| && 1 <= WorkerWeight(At(x), s.workers[w])
    ensures s.written[x] == 0
    ensures Finished(ctx, s.(z := s.z[ctx.zindex[x] := Vector(x)], written := s.written[x := 1]))
  {
    WriteKeepsFinished(ctx, s, w, x, Vector(x));
  }

  // The invariant, step by step.

  lemma InitKeepsInv(ctx: Context, s: State)
    requires Init(ctx, s)
    ensures Inv(ctx, s)
  {
    var todo := s.workers[0].act.todo;
    forall i ensures Live(At(i), s) == Sum(At(i), todo) {
      IdleWeight(At(i), s.workers[1..]);
    }
    forall i ensures Live(At(i), s) <= 1 {
      CoverCount(ctx, todo, 0, ctx.n, i);
    }
    forall i | 0 <= i < ctx.n && Owns(ctx, i) ensures Live(At(i), s) == 1 {
      CoverCount(ctx, todo, 0, ctx.n, i);
    }
    IdleUncounted(s.workers[1..]);
    assert Unwritten(ctx, s.written) == OwnedSet(ctx);
    forall t | t in todo ensures Fits(t, ctx.nz) {
    }
  }

  lemma {:induction false} IdleWeight(m: Measure, ws: seq<Worker>)
    requires forall v :: 0 <= v < |ws| ==> ws[v] == Worker(Idle, [])
    ensures WorkersWeight(m, ws) == 0
  {
    if ws == [] {
    } else {
      IdleWeight(m, ws[1..]);
    }
  }

  lemma {:induction false} IdleUncounted(ws: seq<Worker>)
    requires forall v :: 0 <= v < |ws| ==> ws[v] == Worker(Idle, [])
    ensures Uncounted(ws) == 0
  {
    if ws == [] {
    } else {
      IdleUncounted(ws[1..]);
    }
  }

  lemma UncountedSame(s: State, w: nat, worker: Worker)
    requires w < |s.workers|
    requires Uncounted([s.workers[w]]) == Uncounted([worker])
    ensures Uncounted(s.workers[w := worker]) == Uncounted(s.workers)
  {
    UncountedUpdate(s.workers, w, worker);
  }

  // Steps that neither write a column nor change the tasks.
  predicate OnlyMoves(step: Step) {
    KeepsTasks(step) && !step.EmitNext?
  }

  lemma MoveKeepsInv(ctx: Context, s: State, step: Step, s': State)
    requires Inv(ctx, s) && Next(ctx, s, step, s') && OnlyMoves(step)
    ensures Inv(ctx, s')
  {
    var w := step.w;
    assert WorkerOk(ctx, s.z, w, s.workers[w]);
    MovingKeepsConserved(ctx, s, step, s');
    MoveKeepsCounter(ctx, s, step, s');
    MoveKeepsTasks(ctx, s, step, s');
  }

  lemma MoveKeepsCounter(ctx: Context, s: State, step: Step, s': State)
    requires Sized(ctx, s) && Next(ctx, s, step, s') && OnlyMoves(step)
    ensures s'.z == s.z && s'.written == s.written && s'.numLeft == s.numLeft
    ensures Uncounted(s'.workers) == Uncounted(s.workers)
  {
    UncountedSame(s, step.w, s'.workers[step.w]);
  }

  lemma MovingKeepsConserved(ctx: Context, s: State, step: Step, s': State)
    requires Sized(ctx, s) && Conserved(ctx, s)
    requires step.w < |s.workers| && |s.workers[step.w].hand| <= 1
    requires Next(ctx, s, step, s') && KeepsTasks(step)
    ensures Conserved(ctx, s')
  {
    forall i ensures Live(At(i), s') == Live(At(i), s) {
      MovingKeepsLive(ctx, s, step, s', At(i));
    }
  }

  lemma WorkersOkUpdate(ctx: Context, s: State, w: nat, s': State)
    requires WorkersOk(ctx, s) && w < |s.workers|
    requires |s'.workers| == |s.workers| && s'.workers == s.workers[w := s'.workers[w]]
    requires s'.numLeft <= s.numLeft
    requires s'.z != s.z ==> forall v :: 0 <= v < |s.workers| && v != w ==> WorkerOk(ctx, s'.z, v, s.workers[v])
    requires WorkerOk(ctx, s'.z, w, s'.workers[w])
    requires s'.workers[w].act.Exited? && !s.workers[w].act.Exited? ==> s.numLeft <= 0
    ensures WorkersOk(ctx, s')
  {
    forall v | 0 <= v < |s'.workers| ensures WorkerOk(ctx, s'.z, v, s'.workers[v]) {
      assert WorkerOk(ctx, s.z, v, s.workers[v]);
    }
  }

  lemma TakingKeepsTasks(ctx: Context, s: State, step: Step, s': State)
    requires Sized(ctx, s)
    requires QueuesOk(ctx, s.z, s.q) && WorkersOk(ctx, s)
    requires Next(ctx, s, step, s') && (step.TakeS? || step.TakeC? || step.TakeR?)
    ensures QueuesOk(ctx, s'.z, s'.q) && WorkersOk(ctx, s')
  {
    var w := step.w;
    var t := if step.TakeS? then s.q.s[0] else if step.TakeC? then s.q.c[0] else s.q.r[0];
    assert t in s.q.s || t in s.q.c || t in s.q.r;
    assert Queued(ctx, s.z, t);
    WorkersOkUpdate(ctx, s, w, s');
  }

  lemma RotatingKeepsTasks(ctx: Context, s: State, step: Step, s': State)
    requires Sized(ctx, s)
    requires QueuesOk(ctx, s.z, s.q) && WorkersOk(ctx, s)
    requires Next(ctx, s, step, s') && (step.Requeue? || step.PickUp? || step.PutBack?)
    ensures QueuesOk(ctx, s'.z, s'.q) && WorkersOk(ctx, s')
  {
    var w := step.w;
    assert WorkerOk(ctx, s.z, w, s.workers[w]);
    if step.PickUp? {
      assert s.q.r[0] in s.q.r;
    } else if step.PutBack? {
      assert s.workers[w].hand[0] in s.workers[w].hand;
    } else {
      assert Queued(ctx, s.z, s.workers[w].act.cl.(waiting := true));
    }
    WorkersOkUpdate(ctx, s, w, s');
  }

  lemma MoveKeepsTasks(ctx: Context, s: State, step: Step, s': State)
    requires Sized(ctx, s)
    requires QueuesOk(ctx, s.z, s.q) && WorkersOk(ctx, s)
    requires Next(ctx, s, step, s') && OnlyMoves(step)
    ensures QueuesOk(ctx, s'.z, s'.q) && WorkersOk(ctx, s')
  {
    if step.TakeS? || step.TakeC? || step.TakeR? {
      TakingKeepsTasks(ctx, s, step, s');
    } else if step.Requeue? || step.PickUp? || step.PutBack? {
      RotatingKeepsTasks(ctx, s, step, s');
    } else {
      assert WorkerOk(ctx, s.z, step.w, s.workers[step.w]);
      WorkersOkUpdate(ctx, s, step.w, s');
    }
  }

  lemma SolveWeight(s: State, w: nat, act: Activity, i: int)
    requires w < |s.workers| && s.workers[w].act.Solving? && s.workers[w].act.next <= s.workers[w].act.t.last
    requires act.Solving? && act.t == s.workers[w].act.t && act.next == s.workers[w].act.next + 1
    ensures Live(At(i), s) == Live(At(i), SetAct(s, w, act)) + if i == s.workers[w].act.next then 1 else 0
  {
    SetWorkerWeight(At(i), s, w, s.workers[w].(act := act));
  }

  // Computing the eigenvector of an index the process does not own: a step over it.
  lemma SkipKeepsInv(ctx: Context, s: State, w: nat, s': State)
    requires Inv(ctx, s) && w < |s.workers| && Solves(ctx, s, w, s')
    requires !Owns(ctx, s.workers[w].act.next)
    ensures Inv(ctx, s')
  {
    assert WorkerOk(ctx, s.z, w, s.workers[w]);
    forall i ensures Live(At(i), s') <= Live(At(i), s) && (Owns(ctx, i) ==> Live(At(i), s') == Live(At(i), s)) {
      SolveWeight(s, w, s'.workers[w].act, i);
    }
    UncountedSame(s, w, s'.workers[w]);
    WorkersOkUpdate(ctx, s, w, s');
  }

  // Computing the eigenvector of an owned index.
  lemma WriteKeepsInv(ctx: Context, s: State, w: nat, s': State)
    requires Inv(ctx, s) && w < |s.workers| && Solves(ctx, s, w, s')
    requires Owns(ctx, s.workers[w].act.next)
    ensures Inv(ctx, s')
  {
    var x := s.workers[w].act.next;
    WriteKeepsTasks(ctx, s, w, s');
    WriteKeepsConserved(ctx, s, w, s');
    WriteFinishes(ctx, s, w, x);
    WriteKeepsCounter(ctx, s, w, s'.workers[w], x);
  }

  lemma WriteKeepsTasks(ctx: Context, s: State, w: nat, s': State)
    requires Sized(ctx, s) && QueuesOk(ctx, s.z, s.q) && WorkersOk(ctx, s)
    requires w < |s.workers| && Solves(ctx, s, w, s')
    requires Owns(ctx, s.workers[w].act.next) && Live(At(s.workers[w].act.next), s) <= 1
    ensures 1 <= WorkerWeight(At(s.workers[w].act.next), s.workers[w])
    ensures QueuesOk(ctx, s'.z, s'.q) && WorkersOk(ctx, s')
  {
    var x := s.workers[w].act.next;
    assert WorkerOk(ctx, s.z, w, s.workers[w]);
    assert 1 <= ActWeight(At(x), s.workers[w].act) <= WorkerWeight(At(x), s.workers[w]);
    WriteKeepsOthers(ctx, s.z, s.q, s.workers, w, x, Vector(x));
    WorkersOkUpdate(ctx, s, w, s');
  }

  lemma WriteKeepsConserved(ctx: Context, s: State, w: nat, s': State)
    requires Sized(ctx, s) && Conserved(ctx, s) && w < |s.workers| && Solves(ctx, s, w, s')
    requires Owns(ctx, s.workers[w].act.next)
    ensures Conserved(ctx, s')
  {
    forall i ensures Live(At(i), s) == Live(At(i), s') + if i == s.workers[w].act.next then 1 else 0 {
      SolveWeight(s, w, s'.workers[w].act, i);
    }
  }

  lemma WriteKeepsCounter(ctx: Context, s: State, w: nat, worker: Worker, x: int)
    requires Sized(ctx, s) && w < |s.workers| && Owns(ctx, x) && s.written[x] == 0
    requires s.workers[w].act.Solving? && worker.act.Solving? && worker.act.count == s.workers[w].act.count + 1
    ensures |Unwritten(ctx, s.written)| + Uncounted(s.workers)
         == |Unwritten(ctx, s.written[x := 1])| + Uncounted(s.workers[w := worker])
  {
    UncountedUpdate(s.workers, w, worker);
    assert Unwritten(ctx, s.written[x := 1]) == Unwritten(ctx, s.written) - {x};
  }

  lemma SolveDoneKeepsInv(ctx: Context, s: State, step: Step, s': State)
    requires Inv(ctx, s) && Next(ctx, s, step, s') && step.SolveDone?
    ensures Inv(ctx, s')
  {
    var w := step.w;
    assert WorkerOk(ctx, s.z, w, s.workers[w]);
    forall i ensures Live(At(i), s') == Live(At(i), s) {
      SolveDoneKeepsLive(ctx, s, step, s', i);
    }
    UncountedUpdate(s.workers, w, s'.workers[w]);
    WorkersOkUpdate(ctx, s, w, s');
  }

  lemma SolveDoneKeepsLive(ctx: Context, s: State, step: Step, s': State, i: int)
    requires Sized(ctx, s) && Next(ctx, s, step, s') && step.SolveDone?
    ensures Live(At(i), s') == Live(At(i), s)
  {
    SetWorkerWeight(At(i), s, step.w, s'.workers[step.w]);
  }

  lemma SplitKeepsInv(ctx: Context, s: State, step: Step, s': State)
    requires Inv(ctx, s) && Next(ctx, s, step, s') && step.Split?
    ensures Inv(ctx, s')
  {
    var w := step.w;
    assert WorkerOk(ctx, s.z, w, s.workers[w]);
    forall i ensures Live(At(i), s') <= Live(At(i), s) && (Owns(ctx, i) ==> Live(At(i), s') == Live(At(i), s)) {
      SplittingKeepsLive(ctx, s, step, s', i);
    }
    UncountedSame(s, w, s'.workers[w]);
    forall t | t in step.ts ensures IsLive(ctx, t) && Fits(t, ctx.nz) && (t.Cluster? ==> !t.waiting) {
      SubtaskIsLive(ctx, step.gap, s.workers[w].act.cl, step.maxSize, t);
    }
    WorkersOkUpdate(ctx, s, w, s');
  }

  lemma SubtaskIsLive(ctx: Context, gap: seq<bool>, cl: Task, maxSize: nat, t: Task)
    requires IsCluster(ctx, cl) && |gap| == ctx.n && cl.depth < ctx.n
    requires IsSubtask(ctx, gap, cl, maxSize, t)
    ensures IsLive(ctx, t) && Fits(t, ctx.nz) && (t.Cluster? ==> !t.waiting)
  {
    if t.Cluster? {
      assert IsCluster(ctx, t);
      if UsesColumns(t) {
        SubtaskHasScratch(ctx, cl.run, t);
      }
    }
  }

  lemma SubtaskHasScratch(ctx: Context, run: Interval, t: Task)
    requires Valid(ctx) && IsRunIn(ctx, run) && UsesColumns(t)
    requires t.first <= t.last < |ctx.iproc| && t.first <= run.last && run.first <= t.last
    requires t.parent == ParentFor(ctx, run, t.first, t.last)
    ensures Fits(t, ctx.nz) && exists x :: HasScratch(ctx, t, x)
  {
    ScratchIsOwned(ctx, run, t.first, t.last);
    assert HasScratch(ctx, t, Max(t.first, run.first));
  }

  // Inserting a task: its parent representation goes into two columns of its own.
  lemma EmitKeepsInv(ctx: Context, s: State, step: Step, s': State)
    requires Inv(ctx, s) && Next(ctx, s, step, s') && step.EmitNext?
    ensures Inv(ctx, s')
  {
    var w := step.w;
    var t := s.workers[w].act.todo[0];
    assert WorkerOk(ctx, s.z, w, s.workers[w]);
    assert t in s.workers[w].act.todo;
    MovingKeepsConserved(ctx, s, step, s');
    UncountedSame(s, w, s'.workers[w]);
    EmittedTaskStores(ctx, s, w, t);
    StoreIsIntact(ctx, s.z, t);
    PushKeepsQueues(ctx, s'.z, s.q, t);
    WorkersOkUpdate(ctx, s, w, s');
  }

  lemma PushKeepsQueues(ctx: Context, z: seq<Column>, q: Queues, t: Task)
    requires QueuesOk(ctx, z, q) && IsLive(ctx, t) && Intact(z, t) && (t.Cluster? ==> !t.waiting)
    ensures QueuesOk(ctx, z, Push(q, t))
  {
    assert Queued(ctx, z, t);
  }

  // Appending the task to a queue keeps the order of the queues exactly when it is
  // the queue that Push chooses.
  lemma QueueOfTask(ctx: Context, z: seq<Column>, q: Queues, t: Task)
    requires QueuesOk(ctx, z, q) && IsLive(ctx, t) && Intact(z, t) && (t.Cluster? ==> !t.waiting)
    ensures QueuesOk(ctx, z, q.(s := q.s + [t])) <==> Push(q, t) == q.(s := q.s + [t])
    ensures QueuesOk(ctx, z, q.(c := q.c + [t])) <==> Push(q, t) == q.(c := q.c + [t])
    ensures QueuesOk(ctx, z, q.(r := q.r + [t])) <==> Push(q, t) == q.(r := q.r + [t])
  {
    PushKeepsQueues(ctx, z, q, t);
    LastIsIn(q.s, t);
    LastIsIn(q.c, t);
    LastIsIn(q.r, t);
  }

  lemma LastIsIn(ts: seq<Task>, t: Task)
    ensures t in ts + [t] && ts + [t] != ts
  {
    assert (ts + [t])[|ts|] == t;
    assert |ts + [t]| != |ts|;
  }

  ghost predicate OthersOk(ctx: Context, s: State, w: nat) {
    && Sized(ctx, s)
    && QueuesOk(ctx, s.z, s.q)
    && (forall v :: 0 <= v < |s.workers| && v != w ==> WorkerOk(ctx, s.z, v, s.workers[v]))
    && Conserved(ctx, s)
    && Finished(ctx, s)
  }

  lemma ScratchWriteKeepsOthers(ctx: Context, s: State, w: nat, x: int, col: Column)
    requires OthersOk(ctx, s, w) && w < |s.workers| && Owns(ctx, x)
    requires 1 <= WorkerWeight(At(x), s.workers[w])
    ensures OthersOk(ctx, s.(z := s.z[ctx.zindex[x] := col]), w)
  {
    WriteKeepsOthers(ctx, s.z, s.q, s.workers, w, x, col);
    WriteKeepsFinished(ctx, s, w, x, col);
  }

  lemma StoreKeepsOthers(ctx: Context, s: State, w: nat, t: Task, x: int)
    requires OthersOk(ctx, s, w) && w < |s.workers|
    requires UsesColumns(t) && Fits(t, ctx.nz) && HasScratch(ctx, t, x)
    requires 1 <= WorkerWeight(At(x), s.workers[w]) && 1 <= WorkerWeight(At(x + 1), s.workers[w])
    ensures OthersOk(ctx, s.(z := Store(s.z, t)), w)
  {
    var d, l := DPart(t.first, t.last, t.depth), LPart(t.first, t.last, t.depth);
    var s1 := s.(z := s.z[ctx.zindex[x] := d]);
    ScratchWriteKeepsOthers(ctx, s, w, x, d);
    ScratchWriteKeepsOthers(ctx, s1, w, x + 1, l);
    assert Store(s.z, t) == s1.z[ctx.zindex[x+1] := l];
  }

  lemma StoreIsIntact(ctx: Context, z: seq<Column>, t: Task)
    requires Valid(ctx) && |z| == ctx.nz && IsLive(ctx, t) && Fits(t, ctx.nz)
    ensures Intact(Store(z, t), t)
  {
    if UsesColumns(t) {
      var x :| HasScratch(ctx, t, x);
    }
  }

  lemma EmittedTaskStores(ctx: Context, s: State, w: nat, t: Task)
    requires OthersOk(ctx, s, w) && w < |s.workers|
    requires s.workers[w].act.Emitting? && s.workers[w].act.todo != [] && t == s.workers[w].act.todo[0]
    requires IsLive(ctx, t) && Fits(t, ctx.nz)
    ensures OthersOk(ctx, s.(z := Store(s.z, t)), w)
  {
    if UsesColumns(t) {
      var x :| HasScratch(ctx, t, x);
      StoreKeepsOthers(ctx, s, w, t, x);
    } else {
      assert s.(z := Store(s.z, t)) == s;
    }
  }

  lemma StepKeepsInv(ctx: Context, s: State, step: Step, s': State)
    requires Inv(ctx, s) && Next(ctx, s, step, s')
    ensures Inv(ctx, s')
  {
    if OnlyMoves(step) {
      MoveKeepsInv(ctx, s, step, s');
    } else if step.EmitNext? {
      EmitKeepsInv(ctx, s, step, s');
    } else if step.Split? {
      SplitKeepsInv(ctx, s, step, s');
    } else if step.SolveDone? {
      SolveDoneKeepsInv(ctx, s, step, s');
    } else if Owns(ctx, s.workers[step.w].act.next) {
      WriteKeepsInv(ctx, s, step.w, s');
    } else {
      SkipKeepsInv(ctx, s, step.w, s');
    }
  }

  lemma {:induction false} PathKeepsInv(ctx: Context, states: seq<State>, steps: seq<Step>, k: nat)
    requires IsPath(ctx, states, steps) && Inv(ctx, states[0]) && k <= |steps|
    ensures Inv(ctx, states[k])
    decreases k
  {
    if k == 0 {
      assert states[k] == states[0];
    } else {
      PathKeepsInv(ctx, states, steps, k - 1);
      PathStepKeepsInv(ctx, states, steps, k);
    }
  }

  lemma PathStepKeepsInv(ctx: Context, states: seq<State>, steps: seq<Step>, k: nat)
    requires IsPath(ctx, states, steps) && 0 < k <= |steps| && Inv(ctx, states[k-1])
    ensures Inv(ctx, states[k])
  {
    assert IsStep(ctx, states, steps, k - 1);
    StepKeepsInv(ctx, states[k-1], steps[k-1], states[k]);
  }
}
