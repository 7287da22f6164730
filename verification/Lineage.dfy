// Where clusters come from and what becomes of them, over whole runs of the
// scheduler.
module Lineage {
  import opened Tasks
  import opened Subtasks
  import opened Scheduler
  import opened SchedulerSteps
  import opened SchedulerRuns

  // The tasks that a thread holds, other than one it is solving.
  function Held(worker: Worker): seq<Task> {
    worker.hand + match worker.act
                  case Busy(cl) => [cl]
                  case Refined(cl) => [cl]
                  case Emitting(todo) => todo
                  case _ => []
  }

  // The scheduler has the cluster t: in a queue or with a thread.
  ghost predicate Has(s: State, t: Task) {
    t.Cluster? && (t in s.q.c || t in s.q.r || HeldBySome(s.workers, t))
  }

  ghost predicate HeldBySome(ws: seq<Worker>, t: Task) {
    exists w :: 0 <= w < |ws| && t in Held(ws[w])
  }

  // A cluster stays the same but for its representation and its flag.
  predicate Continues(t: Task, t': Task) {
    t.Cluster? && (t' == t || t' == t.(parent := Renewed) || t' == t.(waiting := true))
  }

  ghost predicate IsSplitOf(s: State, step: Step, cl: Task) {
    step.Split? && step.w < |s.workers| && s.workers[step.w].act == Refined(cl)
  }

  ghost predicate IsRenewalOf(s: State, step: Step, cl: Task) {
    step.Renew? && step.w < |s.workers| && s.workers[step.w].act == Busy(cl)
  }

  // Threads other than w keep what they hold.
  lemma HeldElsewhere(ws: seq<Worker>, w: nat, worker: Worker, t: Task)
    requires w < |ws|
    ensures HeldBySome(ws[w := worker], t) ==> t in Held(worker) || HeldBySome(ws, t)
    ensures HeldBySome(ws, t) ==> t in Held(ws[w]) || HeldBySome(ws[w := worker], t)
    ensures t in Held(worker) ==> HeldBySome(ws[w := worker], t)
  {
    var ws' := ws[w := worker];
    if HeldBySome(ws', t) {
      var v :| 0 <= v < |ws'| && t in Held(ws'[v]);
      assert v != w ==> ws'[v] == ws[v];
    }
    if HeldBySome(ws, t) {
      var v :| 0 <= v < |ws| && t in Held(ws[v]);
      assert v != w ==> ws'[v] == ws[v];
    }
    if t in Held(worker) {
      assert ws'[w] == worker;
    }
  }

  lemma HeldIsHeld(ws: seq<Worker>, w: nat, t: Task)
    requires w < |ws| && t in Held(ws[w])
    ensures HeldBySome(ws, t)
  {
  }

  lemma InRest<T>(ts: seq<T>, t: T)
    requires ts != []
    ensures t in ts <==> t == ts[0] || t in ts[1..]
  {
    assert ts == [ts[0]] + ts[1..];
  }

  // Where a cluster that a step leaves behind comes from.
  ghost predicate ComesFrom(s: State, step: Step, t': Task, t: Task) {
    || (step.Split? && t' in step.ts)
    || (Has(s, t) && Continues(t, t') && (t.parent != Renewed && t'.parent == Renewed ==> IsRenewalOf(s, step, t)))
  }

  lemma HasOrigin(ctx: Context, s: State, step: Step, s': State, t': Task) returns (t: Task)
    requires Inv(ctx, s) && Next(ctx, s, step, s') && Has(s', t')
    ensures ComesFrom(s, step, t', t)
  {
    assert WorkerOk(ctx, s.z, step.w, s.workers[step.w]);
    HeldElsewhere(s.workers, step.w, s'.workers[step.w], t');
    if step.EmitNext? {
      t := EmitOrigin(ctx, s, step, s', t');
    } else if step.PickUp? || step.PutBack? {
      t := TurnOrigin(ctx, s, step, s', t');
    } else if step.TakeC? || step.TakeR? {
      t := TakeOrigin(ctx, s, step, s', t');
    } else if step.Renew? || step.Requeue? {
      t := ChangeOrigin(ctx, s, step, s', t');
    } else if step.Split? {
      t := t';
      SplitOrigin(ctx, s, step, s', t');
    } else {
      t := t';
      ActOrigin(ctx, s, step, s', t');
    }
  }

  lemma EmitOrigin(ctx: Context, s: State, step: Step, s': State, t': Task) returns (t: Task)
    requires Sized(ctx, s) && Next(ctx, s, step, s') && step.EmitNext? && Has(s', t')
    requires HeldBySome(s'.workers, t') ==> t' in Held(s'.workers[step.w]) || HeldBySome(s.workers, t')
    ensures ComesFrom(s, step, t', t)
  {
    var worker := s.workers[step.w];
    t := t';
    InRest(worker.act.todo, t');
    if t' in Held(worker) {
      HeldIsHeld(s.workers, step.w, t');
    }
  }

  lemma TurnOrigin(ctx: Context, s: State, step: Step, s': State, t': Task) returns (t: Task)
    requires Sized(ctx, s) && Next(ctx, s, step, s') && (step.PickUp? || step.PutBack?) && Has(s', t')
    requires HeldBySome(s'.workers, t') ==> t' in Held(s'.workers[step.w]) || HeldBySome(s.workers, t')
    ensures ComesFrom(s, step, t', t)
  {
    var worker := s.workers[step.w];
    t := t';
    if step.PickUp? {
      InRest(s.q.r, t');
    }
    if t' in Held(worker) {
      HeldIsHeld(s.workers, step.w, t');
    }
  }

  lemma TakeOrigin(ctx: Context, s: State, step: Step, s': State, t': Task) returns (t: Task)
    requires Sized(ctx, s) && Next(ctx, s, step, s') && (step.TakeC? || step.TakeR?) && Has(s', t')
    requires HeldBySome(s'.workers, t') ==> t' in Held(s'.workers[step.w]) || HeldBySome(s.workers, t')
    ensures ComesFrom(s, step, t', t)
  {
    t := t';
    if step.TakeC? {
      InRest(s.q.c, t');
    } else {
      InRest(s.q.r, t');
    }
  }

  lemma ChangeOrigin(ctx: Context, s: State, step: Step, s': State, t': Task) returns (t: Task)
    requires Sized(ctx, s) && Next(ctx, s, step, s') && (step.Renew? || step.Requeue?) && Has(s', t')
    requires HeldBySome(s'.workers, t') ==> t' in Held(s'.workers[step.w]) || HeldBySome(s.workers, t')
    ensures ComesFrom(s, step, t', t)
  {
    t := t';
    if t' !in s.q.c && t' !in s.q.r && !HeldBySome(s.workers, t') {
      t := s.workers[step.w].act.cl;
      HeldIsHeld(s.workers, step.w, t);
    }
  }

  lemma SplitOrigin(ctx: Context, s: State, step: Step, s': State, t': Task)
    requires Sized(ctx, s) && Next(ctx, s, step, s') && step.Split? && Has(s', t')
    requires HeldBySome(s'.workers, t') ==> t' in Held(s'.workers[step.w]) || HeldBySome(s.workers, t')
    ensures ComesFrom(s, step, t', t')
  {
  }

  // The remaining steps add no cluster.
  lemma ActOrigin(ctx: Context, s: State, step: Step, s': State, t': Task)
    requires Sized(ctx, s) && Next(ctx, s, step, s') && Has(s', t')
    requires !step.EmitNext? && !step.PickUp? && !step.PutBack? && !step.TakeC? && !step.TakeR?
    requires !step.Renew? && !step.Requeue? && !step.Split?
    requires HeldBySome(s'.workers, t') ==> t' in Held(s'.workers[step.w]) || HeldBySome(s.workers, t')
    ensures ComesFrom(s, step, t', t')
  {
    if t' in Held(s.workers[step.w]) {
      HeldIsHeld(s.workers, step.w, t');
    }
  }

  // What becomes of a cluster in a step that does not split it.
  lemma HasContinuation(ctx: Context, s: State, step: Step, s': State, t: Task) returns (t': Task)
    requires Inv(ctx, s) && Next(ctx, s, step, s') && Has(s, t) && !IsSplitOf(s, step, t)
    ensures Has(s', t') && Continues(t, t')
  {
    assert WorkerOk(ctx, s.z, step.w, s.workers[step.w]);
    HeldElsewhere(s.workers, step.w, s'.workers[step.w], t);
    if step.EmitNext? {
      t' := EmitContinuation(ctx, s, step, s', t);
    } else if step.PickUp? || step.PutBack? || step.TakeC? || step.TakeR? {
      t' := TakeContinuation(ctx, s, step, s', t);
    } else {
      t' := ActContinuation(ctx, s, step, s', t);
    }
  }

  lemma EmitContinuation(ctx: Context, s: State, step: Step, s': State, t: Task) returns (t': Task)
    requires Sized(ctx, s) && Next(ctx, s, step, s') && step.EmitNext? && Has(s, t)
    requires HeldBySome(s.workers, t) ==> t in Held(s.workers[step.w]) || HeldBySome(s'.workers, t)
    ensures Has(s', t') && Continues(t, t')
  {
    t' := t;
    InRest(s.workers[step.w].act.todo, t);
    if t in Held(s'.workers[step.w]) {
      HeldIsHeld(s'.workers, step.w, t);
    }
  }

  lemma TakeContinuation(ctx: Context, s: State, step: Step, s': State, t: Task) returns (t': Task)
    requires Sized(ctx, s) && Next(ctx, s, step, s') && Has(s, t) && |s.workers[step.w].hand| <= 1
    requires step.PickUp? || step.PutBack? || step.TakeC? || step.TakeR?
    requires HeldBySome(s.workers, t) ==> t in Held(s.workers[step.w]) || HeldBySome(s'.workers, t)
    ensures Has(s', t') && Continues(t, t')
  {
    t' := t;
    if s.q.c != [] {
      InRest(s.q.c, t);
    }
    if s.q.r != [] {
      InRest(s.q.r, t);
    }
    if t in Held(s'.workers[step.w]) {
      HeldIsHeld(s'.workers, step.w, t);
    }
  }

  lemma ActContinuation(ctx: Context, s: State, step: Step, s': State, t: Task) returns (t': Task)
    requires Sized(ctx, s) && Next(ctx, s, step, s') && Has(s, t) && !IsSplitOf(s, step, t)
    requires !step.EmitNext? && !step.PickUp? && !step.PutBack? && !step.TakeC? && !step.TakeR?
    requires HeldBySome(s.workers, t) ==> t in Held(s.workers[step.w]) || HeldBySome(s'.workers, t)
    ensures Has(s', t') && Continues(t, t')
  {
    t' := t;
    if t in s.q.c || t in s.q.r || HeldBySome(s'.workers, t) {
    } else if step.Renew? && t == s.workers[step.w].act.cl {
      t' := t.(parent := Renewed);
      HeldIsHeld(s'.workers, step.w, t');
    } else if step.Requeue? {
      t' := t.(waiting := true);
    } else {
      HeldIsHeld(s'.workers, step.w, t);
    }
  }

  // Clusters whose representation has been computed are refined or wait; all
  // others still have the parent they were created with.

  predicate IsFresh(t: Task) {
    t.Cluster? && t.parent == Renewed ==> t.waiting
  }

  ghost predicate AllFresh(ts: seq<Task>) {
    forall t :: t in ts ==> IsFresh(t)
  }

  ghost predicate IsFreshWorker(worker: Worker) {
    && AllFresh(worker.hand)
    && (worker.act.Busy? ==> IsFresh(worker.act.cl))
    && (worker.act.Emitting? ==> AllFresh(worker.act.todo))
  }

  ghost predicate FreshState(s: State) {
    AllFresh(s.q.c) && AllFresh(s.q.r) && forall w :: 0 <= w < |s.workers| ==> IsFreshWorker(s.workers[w])
  }

  lemma StepKeepsFresh(ctx: Context, s: State, step: Step, s': State)
    requires Inv(ctx, s) && Next(ctx, s, step, s') && FreshState(s)
    ensures FreshState(s')
  {
    assert WorkerOk(ctx, s.z, step.w, s.workers[step.w]) && IsFreshWorker(s.workers[step.w]);
    FreshQueues(ctx, s, step, s');
    FreshWorker(ctx, s, step, s');
    forall v | 0 <= v < |s'.workers| ensures IsFreshWorker(s'.workers[v]) {
      if v != step.w {
        assert s'.workers[v] == s.workers[v] && IsFreshWorker(s.workers[v]);
      }
    }
  }

  lemma FreshQueues(ctx: Context, s: State, step: Step, s': State)
    requires Sized(ctx, s) && Next(ctx, s, step, s') && AllFresh(s.q.c) && AllFresh(s.q.r)
    requires IsFreshWorker(s.workers[step.w])
    ensures AllFresh(s'.q.c) && AllFresh(s'.q.r)
  {
    if step.EmitNext? {
      assert s.workers[step.w].act.todo[0] in s.workers[step.w].act.todo;
    } else if step.PutBack? {
      assert s.workers[step.w].hand[0] in s.workers[step.w].hand;
    }
  }

  lemma FreshWorker(ctx: Context, s: State, step: Step, s': State)
    requires Sized(ctx, s) && Next(ctx, s, step, s') && AllFresh(s.q.c) && AllFresh(s.q.r)
    requires IsFreshWorker(s.workers[step.w])
    ensures IsFreshWorker(s'.workers[step.w])
  {
    if step.Split? {
      SplitIsFresh(ctx, step.gap, s.workers[step.w].act.cl, step.maxSize, step.ts);
    } else if step.TakeC? {
      assert s.q.c[0] in s.q.c;
    } else if step.TakeR? || step.PickUp? {
      assert s.q.r[0] in s.q.r;
    }
  }

  lemma SplitIsFresh(ctx: Context, gap: seq<bool>, cl: Task, maxSize: nat, ts: seq<Task>)
    requires IsCluster(ctx, cl) && |gap| == ctx.n && IsSplit(ctx, gap, cl, maxSize, ts)
    ensures forall t :: t in ts && t.Cluster? ==> t.parent != Renewed && t.depth == cl.depth + 1
    ensures forall t :: t in ts ==> cl.first <= t.first <= t.last <= cl.last
    ensures AllFresh(ts)
  {
    forall t | t in ts
      ensures cl.first <= t.first <= t.last <= cl.last
      ensures t.Cluster? ==> t.parent != Renewed && t.depth == cl.depth + 1
    {
      assert IsSubtask(ctx, gap, cl, maxSize, t);
    }
  }

  lemma {:induction false} RunKeepsFresh(ctx: Context, states: seq<State>, steps: seq<Step>, k: nat)
    requires IsExecution(ctx, states, steps) && k < |states|
    ensures FreshState(states[k])
    decreases k
  {
    if k == 0 {
      InitIsFresh(ctx, states[0]);
    } else {
      RunKeepsFresh(ctx, states, steps, k - 1);
      OneStepKeepsFresh(ctx, states, steps, k);
    }
  }

  lemma OneStepKeepsFresh(ctx: Context, states: seq<State>, steps: seq<Step>, k: nat)
    requires IsExecution(ctx, states, steps) && 0 < k <= |steps| && FreshState(states[k-1])
    ensures FreshState(states[k])
  {
    RunKeepsInv(ctx, states, steps, k - 1);
    assert IsStep(ctx, states, steps, k - 1);
    StepKeepsFresh(ctx, states[k-1], steps[k-1], states[k]);
  }

  lemma InitIsFresh(ctx: Context, s: State)
    requires Init(ctx, s)
    ensures FreshState(s)
    ensures forall t :: Has(s, t) ==> t in s.workers[0].act.todo && t.parent != Renewed
  {
    forall w | 0 <= w < |s.workers| ensures IsFreshWorker(s.workers[w]) {
    }
    forall t | Has(s, t) ensures t in s.workers[0].act.todo && t.parent != Renewed {
      var w :| 0 <= w < |s.workers| && t in Held(s.workers[w]);
      assert w == 0;
    }
  }

  // The clusters that contain index i have gone past depth d: they are deeper, or
  // at depth d with a representation of their own.
  ghost predicate HasPassed(s: State, i: int, d: nat) {
    forall t :: Has(s, t) && Contains(t, i) ==> IsPast(t, d)
  }

  predicate IsPast(t: Task, d: nat)
    requires t.Cluster?
  {
    t.depth > d || (t.depth == d && t.parent == Renewed)
  }

  lemma StepKeepsPassed(ctx: Context, s: State, step: Step, s': State, i: int, d: nat)
    requires Inv(ctx, s) && Next(ctx, s, step, s') && HasPassed(s, i, d)
    ensures HasPassed(s', i, d)
  {
    forall t' | Has(s', t') && Contains(t', i) ensures IsPast(t', d) {
      var t := HasOrigin(ctx, s, step, s', t');
      if step.Split? && t' in step.ts {
        assert WorkerOk(ctx, s.z, step.w, s.workers[step.w]);
        PartIsPast(ctx, s, step, s', t', i, d);
      } else {
        assert IsPast(t, d);
      }
    }
  }

  lemma PartIsPast(ctx: Context, s: State, step: Step, s': State, t: Task, i: int, d: nat)
    requires Sized(ctx, s) && Next(ctx, s, step, s') && HasPassed(s, i, d)
    requires WorkerOk(ctx, s.z, step.w, s.workers[step.w])
    requires step.Split? && t in step.ts && t.Cluster? && Contains(t, i)
    ensures IsPast(t, d)
  {
    var cl := s.workers[step.w].act.cl;
    SplitIsFresh(ctx, step.gap, cl, step.maxSize, step.ts);
    HeldIsHeld(s.workers, step.w, cl);
    assert IsPast(cl, d);
  }

  // Once a cluster has got its representation, its indices have passed its depth.
  lemma RenewalPasses(ctx: Context, s: State, step: Step, s': State, cl: Task, i: int)
    requires Inv(ctx, s) && Next(ctx, s, step, s') && IsRenewalOf(s, step, cl) && Contains(cl, i)
    ensures cl.Cluster? && HasPassed(s', i, cl.depth)
  {
    assert WorkerOk(ctx, s.z, step.w, s.workers[step.w]);
    assert Live(At(i), s) <= 1;
    HolderIsAlone(ctx, s, step, s', cl, i);
  }

  lemma HolderIsAlone(ctx: Context, s: State, step: Step, s': State, cl: Task, i: int)
    requires Sized(ctx, s) && Next(ctx, s, step, s') && IsRenewalOf(s, step, cl) && Contains(cl, i)
    requires s.workers[step.w].hand == [] && Live(At(i), s) <= 1
    ensures cl.Cluster? && HasPassed(s', i, cl.depth)
  {
    var w := step.w;
    BusyWeighs(s.workers[w], i);
    Exclusive(s.q, s.workers, w, i);
    OthersAreElsewhere(s.q, s.workers, s'.workers[w], w, i);
    forall t | Has(s', t) && Contains(t, i) ensures IsPast(t, cl.depth) {
      assert t in Held(s'.workers[w]);
    }
  }

  lemma OthersAreElsewhere(q: Queues, ws: seq<Worker>, worker: Worker, w: nat, i: int)
    requires w < |ws| && forall v :: 0 <= v < |ws| && v != w ==> WorkerWeight(At(i), ws[v]) == 0
    ensures forall t :: HeldBySome(ws[w := worker], t) && Contains(t, i) ==> t in Held(worker)
  {
    var ws' := ws[w := worker];
    forall t | HeldBySome(ws', t) && Contains(t, i) ensures t in Held(worker) {
      var v :| 0 <= v < |ws'| && t in Held(ws'[v]);
      if v != w {
        HeldWeighs(ws[v], t, i);
      }
    }
  }

  lemma BusyWeighs(worker: Worker, i: int)
    requires worker.act.Busy? && Contains(worker.act.cl, i)
    ensures 1 <= WorkerWeight(At(i), worker)
  {
  }

  lemma HeldWeighs(worker: Worker, t: Task, i: int)
    requires t in Held(worker) && Contains(t, i)
    ensures 1 <= WorkerWeight(At(i), worker)
  {
    if t in worker.hand {
      SumMember(At(i), worker.hand, t);
    } else if worker.act.Emitting? {
      SumMember(At(i), worker.act.todo, t);
    }
  }

  lemma {:induction false} RunKeepsPassed(ctx: Context, states: seq<State>, steps: seq<Step>, j: nat, k: nat, i: int,
                                          d: nat)
    requires IsExecution(ctx, states, steps) && j <= k < |states| && HasPassed(states[j], i, d)
    ensures HasPassed(states[k], i, d)
    decreases k
  {
    if j == k {
    } else {
      RunKeepsPassed(ctx, states, steps, j, k - 1, i, d);
      OneStepKeepsPassed(ctx, states, steps, k, i, d);
    }
  }

  lemma OneStepKeepsPassed(ctx: Context, states: seq<State>, steps: seq<Step>, k: nat, i: int, d: nat)
    requires IsExecution(ctx, states, steps) && 0 < k <= |steps| && HasPassed(states[k-1], i, d)
    ensures HasPassed(states[k], i, d)
  {
    RunKeepsInv(ctx, states, steps, k - 1);
    assert IsStep(ctx, states, steps, k - 1);
    StepKeepsPassed(ctx, states[k-1], steps[k-1], states[k], i, d);
  }

  // Of two clusters that share an index, the one refined first is less deep.
  lemma RenewalsDescend(ctx: Context, states: seq<State>, steps: seq<Step>, j: nat, k: nat, t: Task, u: Task, i: int)
    requires IsExecution(ctx, states, steps) && j < k < |steps|
    requires IsRenewalOf(states[j], steps[j], t) && IsRenewalOf(states[k], steps[k], u)
    requires Contains(t, i) && Contains(u, i)
    ensures t.Cluster? && u.Cluster? && t.depth < u.depth
  {
    RenewalIsPassed(ctx, states, steps, j, t, i);
    RunKeepsPassed(ctx, states, steps, j + 1, k, i, t.depth);
    RenewalIsFresh(ctx, states, steps, k, u);
    assert IsPast(u, t.depth);
  }

  lemma RenewalIsPassed(ctx: Context, states: seq<State>, steps: seq<Step>, j: nat, t: Task, i: int)
    requires IsExecution(ctx, states, steps) && j < |steps| && IsRenewalOf(states[j], steps[j], t) && Contains(t, i)
    ensures t.Cluster? && HasPassed(states[j+1], i, t.depth)
  {
    RunKeepsInv(ctx, states, steps, j);
    assert IsStep(ctx, states, steps, j);
    RenewalPasses(ctx, states[j], steps[j], states[j+1], t, i);
  }

  lemma RenewalIsFresh(ctx: Context, states: seq<State>, steps: seq<Step>, k: nat, u: Task)
    requires IsExecution(ctx, states, steps) && k < |steps| && IsRenewalOf(states[k], steps[k], u)
    ensures Has(states[k], u) && u.parent != Renewed
  {
    RunKeepsInv(ctx, states, steps, k);
    RunKeepsFresh(ctx, states, steps, k);
    var s, w := states[k], steps[k].w;
    assert WorkerOk(ctx, s.z, w, s.workers[w]) && IsFreshWorker(s.workers[w]);
    HeldIsHeld(s.workers, w, u);
  }
}
