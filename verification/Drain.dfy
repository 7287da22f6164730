// How a thread works through tasks: PMR_process_s_task, PMR_process_c_task and
// PMR_process_r_queue. Undisturbed by other threads they are runs of the
// scheduler's state machine, and their effect can be stated outright.
module Drain {
  import opened Tasks
  import opened Subtasks
  import opened Scheduler
  import opened SchedulerSteps

  // Column c is that of an index of [lo, hi) that the process owns.
  ghost predicate IsColumnOf(ctx: Context, c: nat, lo: nat, hi: nat)
    requires hi <= |ctx.zindex|
  {
    exists i :: lo <= i < hi && Owns(ctx, i) && ctx.zindex[i] == c
  }

  // The columns of the owned indices of [lo, hi) hold their eigenvectors, the
  // others are as before.
  ghost predicate IsSolved(ctx: Context, z0: seq<Column>, z: seq<Column>, lo: nat, hi: nat)
    requires Valid(ctx) && hi <= ctx.n
  {
    && |z| == |z0| == ctx.nz
    && (forall i :: lo <= i < hi && Owns(ctx, i) ==> z[ctx.zindex[i]] == Vector(i))
    && (forall c: nat :: c < |z| && !IsColumnOf(ctx, c, lo, hi) ==> z[c] == z0[c])
  }

  lemma SolvedNext(ctx: Context, z0: seq<Column>, z: seq<Column>, lo: nat, i: nat)
    requires Valid(ctx) && lo <= i < ctx.n && IsSolved(ctx, z0, z, lo, i)
    ensures Owns(ctx, i) ==> IsSolved(ctx, z0, z[ctx.zindex[i] := Vector(i)], lo, i + 1)
    ensures !Owns(ctx, i) ==> IsSolved(ctx, z0, z, lo, i + 1)
  {
    var i1 := i + 1;
    forall c: nat | c < |z| && !IsColumnOf(ctx, c, lo, i1)
      ensures z[c] == z0[c] && (Owns(ctx, i) ==> ctx.zindex[i] != c)
    {
      assert !IsColumnOf(ctx, c, lo, i);
    }
  }

  lemma ExtendPath(ctx: Context, states: seq<State>, steps: seq<Step>, w: nat)
    returns (states': seq<State>, steps': seq<Step>)
    requires IsPath(ctx, states, steps)
    requires var s := states[|steps|];
             && Sized(ctx, s) && w < |s.workers| && s.workers[w].act.Solving?
             && s.workers[w].act.next <= s.workers[w].act.t.last < ctx.n
    ensures IsPath(ctx, states', steps') && states'[0] == states[0]
    ensures var s, s' := states[|steps|], states'[|steps'|];
            var act := s.workers[w].act; var own := Owns(ctx, act.next);
            && Sized(ctx, s') && s'.numLeft == s.numLeft && s'.q == s.q && |s'.workers| == |s.workers|
            && s'.workers[w] == s.workers[w].(act := Solving(act.t, act.next + 1, act.count + if own then 1 else 0))
            && s'.z == if own then s.z[ctx.zindex[act.next] := Vector(act.next)] else s.z
  {
    var s := states[|steps|];
    var act := s.workers[w].act;
    var s' := if ctx.iproc[act.next] != ctx.pid then SetAct(s, w, act.(next := act.next + 1))
              else SetAct(s.(z := s.z[ctx.zindex[act.next] := Vector(act.next)],
                             written := s.written[act.next := s.written[act.next] + 1]),
                          w, act.(next := act.next + 1, count := act.count + 1));
    PathAppend(ctx, states, steps, SolveNext(w), s');
    states', steps' := states + [s'], steps + [SolveNext(w)];
  }

  lemma FinishPath(ctx: Context, states: seq<State>, steps: seq<Step>, w: nat)
    returns (states': seq<State>, steps': seq<Step>)
    requires IsPath(ctx, states, steps)
    requires var s := states[|steps|];
             Sized(ctx, s) && w < |s.workers| && s.workers[w].act.Solving?
                 && s.workers[w].act.next > s.workers[w].act.t.last
    ensures IsPath(ctx, states', steps') && states'[0] == states[0] && steps' == steps + [SolveDone(w)]
    ensures var s := states[|steps|];
            states'[|steps'|] == SetAct(s.(numLeft := s.numLeft - s.workers[w].act.count), w, Idle)
  {
    var s := states[|steps|];
    var s' := SetAct(s.(numLeft := s.numLeft - s.workers[w].act.count), w, Idle);
    PathAppend(ctx, states, steps, SolveDone(w), s');
    states', steps' := states + [s'], steps + [SolveDone(w)];
  }

  // The loop has reached index i of task t; what it has done is a run of thread w
  // from state s0.
  ghost predicate HasReached(ctx: Context, s0: State, w: nat, t: Task, z: seq<Column>, i: nat, count: nat,
                             states: seq<State>, steps: seq<Step>)
    requires Sized(ctx, s0) && w < |s0.workers| && t.first <= i <= ctx.n
  {
    && count == |OwnedIn(ctx, t.first, i)| && IsSolved(ctx, s0.z, z, t.first, i)
    && IsPath(ctx, states, steps) && states[0] == s0
    && var s := states[|steps|];
       && Sized(ctx, s) && s.z == z && s.numLeft == s0.numLeft && s.q == s0.q
       && |s.workers| == |s0.workers| && s.workers[w] == s0.workers[w].(act := Solving(t, i, count))
  }

  lemma OneTurn(ctx: Context, s0: State, w: nat, t: Task, z: seq<Column>, i: nat, count: nat,
                states: seq<State>, steps: seq<Step>)
    returns (states': seq<State>, steps': seq<Step>)
    requires Sized(ctx, s0) && w < |s0.workers| && t.first <= i <= t.last < ctx.n
    requires HasReached(ctx, s0, w, t, z, i, count, states, steps)
    ensures Owns(ctx, i) ==> 0 <= ctx.zindex[i] < |z|
    ensures var z', count' := if Owns(ctx, i) then z[ctx.zindex[i] := Vector(i)] else z,
                              if Owns(ctx, i) then count + 1 else count;
            HasReached(ctx, s0, w, t, z', i + 1, count', states', steps')
  {
    OwnedInNext(ctx, t.first, i);
    SolvedNext(ctx, s0.z, z, t.first, i);
    states', steps' := ExtendPath(ctx, states, steps, w);
  }

  // One task of isolated indices, from the first to the last. The path is that of
  // the thread w, from the state s0 in which it has just taken the task.
  method ProcessSTask(ctx: Context, t: Task, z: array<Column>, ghost s0: State, ghost w: nat)
    returns (numDecrement: nat, ghost states: seq<State>, ghost steps: seq<Step>)
    requires Sized(ctx, s0) && w < |s0.workers| && s0.workers[w].act == Solving(t, t.first, 0)
    requires t.first <= t.last < ctx.n && z[..] == s0.z
    modifies z
    ensures IsSolved(ctx, old(z[..]), z[..], t.first, t.last + 1)
    ensures numDecrement == |OwnedIn(ctx, t.first, t.last + 1)|
    ensures IsPath(ctx, states, steps) && states[0] == s0 && steps != [] && steps[|steps|-1] == SolveDone(w)
    ensures var s := states[|steps|];
            && Sized(ctx, s) && s.z == z[..] && s.numLeft == s0.numLeft - numDecrement && s.q == s0.q
            && |s.workers| == |s0.workers| && s.workers[w] == s0.workers[w].(act := Idle)
  {
    numDecrement := 0;
    states, steps := [s0], [];
    for i := t.first to t.last + 1
      invariant HasReached(ctx, s0, w, t, z[..], i, numDecrement, states, steps)
    {
      states, steps := OneTurn(ctx, s0, w, t, z[..], i, numDecrement, states, steps);
      if ctx.iproc[i] != ctx.pid {
        continue;
      }
      numDecrement := numDecrement + 1;
      z[ctx.zindex[i]] := Vector(i);
    }
    states, steps := FinishPath(ctx, states, steps, w);
  }

  // Inserting the tasks of a list, one after the other.

  lemma {:induction false} FirstOfAll(q: Queues, z: seq<Column>, ts: seq<Task>)
    requires ts != [] && forall t :: t in ts ==> Fits(t, |z|)
    ensures PushAll(Push(q, ts[0]), ts[1..]) == PushAll(q, ts)
    ensures StoreAll(Store(z, ts[0]), ts[1..]) == StoreAll(z, ts)
  {
    var n := |ts| - 1;
    if n == 0 {
      assert ts[..0] == [] && ts[1..] == [];
    } else {
      assert ts[..n][1..] == ts[1..][..n-1] && ts[..n][0] == ts[0];
      FirstOfAll(q, z, ts[..n]);
    }
  }

  lemma {:induction false} EmitAll(ctx: Context, s: State, w: nat, ts: seq<Task>)
    returns (states: seq<State>, steps: seq<Step>)
    requires Sized(ctx, s) && w < |s.workers| && s.workers[w].act == Emitting(ts)
    requires forall t :: t in ts ==> Fits(t, ctx.nz)
    ensures IsPath(ctx, states, steps) && states[0] == s
    ensures states[|steps|] == SetAct(s.(q := PushAll(s.q, ts), z := StoreAll(s.z, ts)), w, Idle)
    decreases |ts|
  {
    if ts == [] {
      states, steps := [s, SetAct(s, w, Idle)], [EmitDone(w)];
    } else {
      var s' := SetAct(s.(q := Push(s.q, ts[0]), z := Store(s.z, ts[0])), w, Emitting(ts[1..]));
      assert Next(ctx, s, EmitNext(w), s');
      var states', steps' := EmitAll(ctx, s', w, ts[1..]);
      states, steps := [s] + states', [EmitNext(w)] + steps';
      FirstOfAll(s.q, s.z, ts);
      assert states[|steps|] == states'[|steps'|];
      forall k | 0 <= k < |steps| ensures IsStep(ctx, states, steps, k) {
        assert k > 0 ==> IsStep(ctx, states', steps', k - 1);
      }
    }
  }

  // Splitting a refined cluster and inserting the subtasks.
  lemma SplitSteps(ctx: Context, s: State, w: nat, gap: seq<bool>, maxSize: nat, ts: seq<Task>)
    returns (states: seq<State>, steps: seq<Step>)
    requires Sized(ctx, s) && w < |s.workers| && s.workers[w].act.Refined? && s.workers[w].hand == []
    requires IsCluster(ctx, s.workers[w].act.cl) && |gap| == ctx.n
    requires IsSplit(ctx, gap, s.workers[w].act.cl, maxSize, ts) && forall t :: t in ts ==> Fits(t, ctx.nz)
    ensures IsPath(ctx, states, steps) && states[0] == s && steps != [] && steps[0].Split?
    ensures states[|steps|] == SetAct(s.(q := PushAll(s.q, ts), z := StoreAll(s.z, ts)), w, Idle)
  {
    var s' := SetAct(s, w, Emitting(ts));
    assert Next(ctx, s, Split(w, gap, maxSize, ts), s');
    var states', steps' := EmitAll(ctx, s', w, ts);
    PathAppend(ctx, [s], [], Split(w, gap, maxSize, ts), s');
    PathConcat(ctx, [s] + [s'], [] + [Split(w, gap, maxSize, ts)], states', steps');
    states, steps := [s] + [s'] + states'[1..], [] + [Split(w, gap, maxSize, ts)] + steps';
  }

  // PMR_process_c_task, for a cluster that thread w has just taken. A cluster
  // that is not waiting yet gets its representation and is refined; `gap` is what
  // the refinement finds. A cluster of several processes is split if its messages
  // have arrived, else it is to wait.

  // The thread holds cluster cl.
  ghost predicate Holds(ctx: Context, s: State, w: nat, cl: Task) {
    && Sized(ctx, s) && w < |s.workers|
    && s.workers[w] == Worker(if cl.Cluster? && cl.waiting then Refined(cl) else Busy(cl), [])
    && WorkerOk(ctx, s.z, w, s.workers[w])
  }

  lemma RefineSteps(ctx: Context, s: State, w: nat, cl: Task) returns (states: seq<State>, steps: seq<Step>)
    requires Holds(ctx, s, w, cl)
    ensures IsPath(ctx, states, steps) && states[0] == s
    ensures states[|steps|] == SetAct(s, w, Refined(cl.(parent := Renewed)))
  {
    if cl.waiting {
      states, steps := [s], [];
      assert SetAct(s, w, Refined(cl)) == s;
    } else {
      var s' := SetAct(s, w, Refined(cl.(parent := Renewed)));
      assert Next(ctx, s, Renew(w), s');
      PathAppend(ctx, [s], [], Renew(w), s');
      states, steps := [s] + [s'], [] + [Renew(w)];
    }
  }

  lemma ProcessedPath(ctx: Context, s: State, w: nat, cl: Task, gap: seq<bool>, maxSize: nat, ts: seq<Task>)
    returns (states: seq<State>, steps: seq<Step>)
    requires Holds(ctx, s, w, cl) && |gap| == ctx.n && IsCluster(ctx, cl.(parent := Renewed))
    requires IsSplit(ctx, gap, cl.(parent := Renewed), maxSize, ts) && forall t :: t in ts ==> Fits(t, ctx.nz)
    ensures IsPath(ctx, states, steps) && states[0] == s
    ensures states[|steps|] == SetAct(s.(q := PushAll(s.q, ts), z := StoreAll(s.z, ts)), w, Idle)
    ensures exists k :: 0 <= k < |steps| && steps[k].Split?
  {
    var states1, steps1 := RefineSteps(ctx, s, w, cl);
    var states2, steps2 := SplitSteps(ctx, states1[|steps1|], w, gap, maxSize, ts);
    PathConcat(ctx, states1, steps1, states2, steps2);
    states, steps := states1 + states2[1..], steps1 + steps2;
    assert steps[|steps1|] == steps2[0];
  }

  lemma WaitingPath(ctx: Context, s: State, w: nat, cl: Task) returns (states: seq<State>, steps: seq<Step>)
    requires Holds(ctx, s, w, cl) && Shared(cl)
    ensures IsPath(ctx, states, steps) && states[0] == s
    ensures states[|steps|] == SetAct(s.(q := s.q.(r := s.q.r + [cl.(parent := Renewed, waiting := true)])), w, Idle)
  {
    var states1, steps1 := RefineSteps(ctx, s, w, cl);
    var s1 := states1[|steps1|];
    var s2 := SetAct(s.(q := s.q.(r := s.q.r + [cl.(parent := Renewed, waiting := true)])), w, Idle);
    assert Next(ctx, s1, Requeue(w), s2);
    PathAppend(ctx, states1, steps1, Requeue(w), s2);
    states, steps := states1 + [s2], steps1 + [Requeue(w)];
  }

  method ProcessCTask(ctx: Context, cl: Task, arrived: bool, gap: seq<bool>, numLeft: nat, wq: WorkQueue,
                      z: array<Column>, ghost s0: State, ghost w: nat)
    returns (processed: bool, cl': Task, ts: seq<Task>, ghost states: seq<State>, ghost steps: seq<Step>)
    requires Holds(ctx, s0, w, cl) && |gap| == ctx.n && wq.View() == s0.q && z[..] == s0.z
    modifies wq, z
    ensures processed <==> arrived || !Shared(cl)
    ensures processed ==>
              && IsCluster(ctx, cl.(parent := Renewed))
              && IsSplit(ctx, gap, cl.(parent := Renewed), MaxSize(ctx, cl.depth, numLeft), ts)
              && wq.View() == PushAll(s0.q, ts)
              && exists k :: 0 <= k < |steps| && steps[k].Split?
    ensures !processed ==> wq.View() == s0.q && cl' == cl.(parent := Renewed, waiting := true)
    ensures IsPath(ctx, states, steps) && states[0] == s0
    ensures var q := if processed then wq.View() else s0.q.(r := s0.q.r + [cl']);
            states[|steps|] == SetAct(s0.(q := q, z := z[..]), w, Idle)
  {
    ts := [];
    cl' := cl;
    if !cl.waiting {
      cl' := cl.(parent := Renewed);
    }
    processed := arrived || cl.leftPid == cl.rightPid;
    if processed {
      ts := CreateSubtasks(ctx, cl', gap, numLeft, wq, z);
      states, steps := ProcessedPath(ctx, s0, w, cl, gap, MaxSize(ctx, cl.depth, numLeft), ts);
    } else {
      cl' := cl'.(waiting := true);
      states, steps := WaitingPath(ctx, s0, w, cl);
    }
  }

  // What has become of a cluster taken from the r-queue: it is split into
  // subtasks, or its messages have not all arrived.
  datatype Outcome = Processed(ts: seq<Task>) | Incomplete

  ghost predicate IsOutcome(ctx: Context, t: Task, arrived: bool, gap: seq<bool>, numLeft: nat, outcome: Outcome)
    requires Valid(ctx)
  {
    && (outcome.Processed? <==> arrived)
    && (outcome.Processed? ==>
          && t.Cluster? && |gap| == ctx.n && IsCluster(ctx, t.(parent := Renewed))
          && IsSplit(ctx, gap, t.(parent := Renewed), MaxSize(ctx, t.depth, numLeft), outcome.ts))
  }

  function Waits(t: Task): Task
    requires t.Cluster?
  {
    t.(parent := Renewed, waiting := true)
  }

  predicate AllClusters(r: seq<Task>) {
    forall k :: 0 <= k < |r| ==> r[k].Cluster?
  }

  function AfterTask(t: Task, mayProcess: bool, outcome: Outcome, q: Queues): Queues
    requires t.Cluster?
  {
    if !mayProcess then q.(r := q.r + [t])
    else match outcome
      case Processed(ts) => PushAll(q, ts)
      case Incomplete => q.(r := q.r + [Waits(t)])
  }

  // The queues after the tasks r[..n] have been taken off the front.
  function AfterTurn(q: Queues, mayProcess: bool, outcomes: seq<Outcome>, n: nat): Queues
    requires n <= |q.r| && n <= |outcomes| && AllClusters(q.r)
  {
    if n == 0 then q
    else
      var before := AfterTurn(q, mayProcess, outcomes, n - 1);
      AfterTask(q.r[n-1], mayProcess, outcomes[n-1], before.(r := if before.r == [] then [] else before.r[1..]))
  }

  lemma {:induction false} AfterTurnDepends(q: Queues, mayProcess: bool, outcomes: seq<Outcome>, outcome: Outcome,
                                            n: nat)
    requires n <= |q.r| && n <= |outcomes| && AllClusters(q.r)
    ensures AfterTurn(q, mayProcess, outcomes + [outcome], n) == AfterTurn(q, mayProcess, outcomes, n)
  {
    if n == 0 {
    } else {
      AfterTurnDepends(q, mayProcess, outcomes, outcome, n - 1);
    }
  }

  // While a thread turns the queue over, the tasks it has not reached are in front.
  lemma {:induction false} RestIsInFront(q: Queues, mayProcess: bool, outcomes: seq<Outcome>, n: nat)
    requires n <= |q.r| && n <= |outcomes| && AllClusters(q.r)
    ensures q.r[n..] <= AfterTurn(q, mayProcess, outcomes, n).r
  {
    if n == 0 {
    } else {
      RestIsInFront(q, mayProcess, outcomes, n - 1);
      var before := AfterTurn(q, mayProcess, outcomes, n - 1);
      assert before.r[0] == q.r[n-1..][0];
      assert q.r[n..] == q.r[n-1..][1..] <= before.r[1..];
      if mayProcess && outcomes[n-1].Processed? {
        PushAllGrows(before.(r := before.r[1..]), outcomes[n-1].ts);
      }
    }
  }

  // The loop of thread w stands before a state of a run in which w is idle.
  ghost predicate IsIdleAt(ctx: Context, s0: State, w: nat, q: Queues, z: seq<Column>,
                           states: seq<State>, steps: seq<Step>)
    requires w < |s0.workers|
  {
    && IsPath(ctx, states, steps) && states[0] == s0
    && states[|steps|] == s0.(q := q, z := z) && s0.workers[w] == Worker(Idle, [])
  }

  lemma IdleKeepsInv(ctx: Context, s0: State, w: nat, q: Queues, z: seq<Column>, states: seq<State>, steps: seq<Step>)
    requires w < |s0.workers| && IsIdleAt(ctx, s0, w, q, z, states, steps) && Inv(ctx, s0)
    ensures Inv(ctx, s0.(q := q, z := z)) && QueuesOk(ctx, z, q) && |z| == ctx.nz
  {
    PathKeepsInv(ctx, states, steps, |steps|);
  }

  // Taking the task in front.
  lemma TakeFromR(ctx: Context, s: State, w: nat) returns (s': State)
    requires Inv(ctx, s) && w < |s.workers| && s.workers[w] == Worker(Idle, []) && s.q.r != []
    requires s.q.r[0].depth < ctx.n && (ctx.funneled ==> w == 0)
    ensures Next(ctx, s, TakeR(w), s') && Sized(ctx, s) && Holds(ctx, s', w, s.q.r[0]) && Shared(s.q.r[0])
    ensures var cl := s.q.r[0];
            s' == SetAct(s.(q := s.q.(r := s.q.r[1..])), w, if cl.waiting then Refined(cl) else Busy(cl))
  {
    var cl := s.q.r[0];
    assert cl in s.q.r;
    s' := SetAct(s.(q := s.q.(r := s.q.r[1..])), w, if cl.waiting then Refined(cl) else Busy(cl));
  }

  // Taking it only to put it back.
  lemma TurnOver(ctx: Context, s: State, w: nat) returns (states: seq<State>, steps: seq<Step>)
    requires Sized(ctx, s) && w < |s.workers| && s.workers[w] == Worker(Idle, []) && s.q.r != []
    ensures IsPath(ctx, states, steps) && states[0] == s
    ensures states[|steps|] == s.(q := s.q.(r := s.q.r[1..] + [s.q.r[0]]))
  {
    var t := s.q.r[0];
    var s1 := s.(q := s.q.(r := s.q.r[1..]), workers := s.workers[w := Worker(Idle, [t])]);
    var s2 := s.(q := s.q.(r := s.q.r[1..] + [t]));
    assert Next(ctx, s, PickUp(w), s1);
    assert s1.workers[w := Worker(Idle, [])] == s.workers;
    assert Next(ctx, s1, PutBack(w), s2);
    PathAppend(ctx, [s], [], PickUp(w), s1);
    PathAppend(ctx, [s] + [s1], [] + [PickUp(w)], PutBack(w), s2);
    states, steps := [s] + [s1] + [s2], [] + [PickUp(w)] + [PutBack(w)];
  }

  lemma ExtendIdle(ctx: Context, s0: State, w: nat, q: Queues, z: seq<Column>, states: seq<State>, steps: seq<Step>,
                   states': seq<State>, steps': seq<Step>, q': Queues, z': seq<Column>)
    returns (all: seq<State>, path: seq<Step>)
    requires w < |s0.workers| && IsIdleAt(ctx, s0, w, q, z, states, steps)
    requires IsPath(ctx, states', steps') && states'[0] == s0.(q := q, z := z)
    requires states'[|steps'|] == s0.(q := q', z := z')
    ensures IsIdleAt(ctx, s0, w, q', z', all, path)
  {
    PathConcat(ctx, states, steps, states', steps');
    all, path := states + states'[1..], steps + steps';
  }

  // Processing the task in front of the r-queue.
  method ProcessFront(ctx: Context, wq: WorkQueue, z: array<Column>, numLeft: nat, arrived: bool, gap: seq<bool>,
                      ghost s0: State, ghost w: nat, ghost states: seq<State>, ghost steps: seq<Step>)
    returns (ghost outcome: Outcome, ghost states': seq<State>, ghost steps': seq<Step>)
    requires w < |s0.workers| && Inv(ctx, s0) && IsIdleAt(ctx, s0, w, wq.View(), z[..], states, steps)
    requires wq.r != [] && wq.r[0].depth < ctx.n && (ctx.funneled ==> w == 0) && |gap| == ctx.n
    modifies wq, z
    ensures old(wq.r)[0].Cluster? && Valid(ctx) && IsOutcome(ctx, old(wq.r)[0], arrived, gap, numLeft, outcome)
    ensures wq.View() == AfterTask(old(wq.r)[0], true, outcome, old(wq.View()).(r := old(wq.r)[1..]))
    ensures IsIdleAt(ctx, s0, w, wq.View(), z[..], states', steps')
  {
    IdleKeepsInv(ctx, s0, w, wq.View(), z[..], states, steps);
    ghost var q, zs := wq.View(), z[..];
    ghost var s := s0.(q := q, z := zs);
    ghost var s1 := TakeFromR(ctx, s, w);
    var task := wq.r[0];
    wq.r := wq.r[1..];
    var processed, task', ts;
    ghost var ss, ps;
    processed, task', ts, ss, ps := ProcessCTask(ctx, task, arrived, gap, numLeft, wq, z, s1, w);
    if !processed {
      wq.r := wq.r + [task'];
    }
    outcome := if processed then Processed(ts) else Incomplete;
    states', steps' := AfterFront(ctx, s0, w, q, zs, states, steps, s1, ss, ps, wq.View(), z[..]);
  }

  lemma AfterFront(ctx: Context, s0: State, w: nat, q: Queues, z: seq<Column>, states: seq<State>, steps: seq<Step>,
                   s1: State, ss: seq<State>, ps: seq<Step>, q': Queues, z': seq<Column>)
    returns (states': seq<State>, steps': seq<Step>)
    requires w < |s0.workers| && IsIdleAt(ctx, s0, w, q, z, states, steps) && Sized(ctx, s0.(q := q, z := z))
    requires |s1.workers| == |s0.workers| && Next(ctx, s0.(q := q, z := z), TakeR(w), s1)
    requires IsPath(ctx, ss, ps) && ss[0] == s1 && ss[|ps|] == SetAct(s1.(q := q', z := z'), w, Idle)
    ensures IsIdleAt(ctx, s0, w, q', z', states', steps')
  {
    var s := s0.(q := q, z := z);
    PathAppend(ctx, [s], [], TakeR(w), s1);
    PathConcat(ctx, [s] + [s1], [] + [TakeR(w)], ss, ps);
    assert ss[|ps|].workers == s0.workers;
    states', steps' := ExtendIdle(ctx, s0, w, q, z, states, steps, [s] + [s1] + ss[1..], [] + [TakeR(w)] + ps, q', z');
  }

  method TurnOverFront(ctx: Context, wq: WorkQueue, ghost z: seq<Column>, ghost s0: State, ghost w: nat,
                       ghost states: seq<State>, ghost steps: seq<Step>)
    returns (ghost states': seq<State>, ghost steps': seq<Step>)
    requires w < |s0.workers| && Inv(ctx, s0) && IsIdleAt(ctx, s0, w, wq.View(), z, states, steps) && wq.r != []
    modifies wq
    ensures wq.View() == old(wq.View()).(r := old(wq.r)[1..] + [old(wq.r)[0]])
    ensures IsIdleAt(ctx, s0, w, wq.View(), z, states', steps')
  {
    IdleKeepsInv(ctx, s0, w, wq.View(), z, states, steps);
    ghost var q := wq.View();
    ghost var ss, ps := TurnOver(ctx, s0.(q := q, z := z), w);
    var task := wq.r[0];
    wq.r := wq.r[1..];
    wq.r := wq.r + [task];
    states', steps' := ExtendIdle(ctx, s0, w, q, z, states, steps, ss, ps, wq.View(), z);
  }

  // The first |outcomes| tasks of the queue q0 have been handled, with these
  // outcomes, and q is what the queues have become.
  ghost predicate HasTurned(ctx: Context, q0: Queues, mayProcess: bool, arrived: seq<bool>, gaps: seq<seq<bool>>,
                            numLeft: nat, outcomes: seq<Outcome>, q: Queues)
    requires Valid(ctx) && AllClusters(q0.r) && |arrived| == |gaps| == |q0.r|
  {
    && |outcomes| <= |q0.r|
    && q == AfterTurn(q0, mayProcess, outcomes, |outcomes|)
    && (mayProcess ==> forall k :: 0 <= k < |outcomes| ==>
          IsOutcome(ctx, q0.r[k], arrived[k], gaps[k], numLeft, outcomes[k]))
  }

  lemma TurnFront(ctx: Context, q0: Queues, mayProcess: bool, arrived: seq<bool>, gaps: seq<seq<bool>>, numLeft: nat,
                  outcomes: seq<Outcome>, q: Queues)
    requires Valid(ctx) && AllClusters(q0.r) && |arrived| == |gaps| == |q0.r| && |outcomes| < |q0.r|
    requires HasTurned(ctx, q0, mayProcess, arrived, gaps, numLeft, outcomes, q)
    ensures q.r != [] && q.r[0] == q0.r[|outcomes|]
  {
    RestIsInFront(q0, mayProcess, outcomes, |outcomes|);
    assert q.r[0] == q0.r[|outcomes|..][0];
  }

  lemma TurnNext(ctx: Context, q0: Queues, mayProcess: bool, arrived: seq<bool>, gaps: seq<seq<bool>>, numLeft: nat,
                 outcomes: seq<Outcome>, q: Queues, outcome: Outcome)
    requires Valid(ctx) && AllClusters(q0.r) && |arrived| == |gaps| == |q0.r| && |outcomes| < |q0.r|
    requires HasTurned(ctx, q0, mayProcess, arrived, gaps, numLeft, outcomes, q)
    requires q.r != [] && q.r[0] == q0.r[|outcomes|]
    requires mayProcess ==> IsOutcome(ctx, q.r[0], arrived[|outcomes|], gaps[|outcomes|], numLeft, outcome)
    ensures HasTurned(ctx, q0, mayProcess, arrived, gaps, numLeft, outcomes + [outcome],
                      AfterTask(q.r[0], mayProcess, outcome, q.(r := q.r[1..])))
  {
    OneMoreTurned(q0, mayProcess, outcomes, outcome);
    var outcomes' := outcomes + [outcome];
    if mayProcess {
      forall k | 0 <= k < |outcomes'|
        ensures IsOutcome(ctx, q0.r[k], arrived[k], gaps[k], numLeft, outcomes'[k])
      {
        if k < |outcomes| {
          assert outcomes'[k] == outcomes[k];
        } else {
          assert outcomes'[k] == outcome;
        }
      }
    }
  }

  lemma OneMoreTurned(q: Queues, mayProcess: bool, outcomes: seq<Outcome>, outcome: Outcome)
    requires |outcomes| < |q.r| && AllClusters(q.r)
    ensures var before := AfterTurn(q, mayProcess, outcomes, |outcomes|);
            var rest := before.(r := if before.r == [] then [] else before.r[1..]);
            AfterTurn(q, mayProcess, outcomes + [outcome], |outcomes| + 1)
              == AfterTask(q.r[|outcomes|], mayProcess, outcome, rest)
  {
    AfterTurnDepends(q, mayProcess, outcomes, outcome, |outcomes|);
  }

  // PMR_process_r_queue, undisturbed by other threads: it is a run of thread tid.
  // arrived[k] says whether the messages of the k-th task have all arrived, and
  // gaps[k] is what its refinement finds. False stands for the failed assertion
  // that guards against infinitely deep trees.
  method ProcessRQueue(ctx: Context, wq: WorkQueue, z: array<Column>, tid: nat, numLeft: nat, arrived: seq<bool>,
                       gaps: seq<seq<bool>>, ghost s0: State)
    returns (ok: bool, ghost outcomes: seq<Outcome>, ghost states: seq<State>, ghost steps: seq<Step>)
    requires Inv(ctx, s0) && tid < |s0.workers| && s0.workers[tid] == Worker(Idle, [])
    requires wq.View() == s0.q && z[..] == s0.z && |arrived| == |gaps| == |wq.r|
    requires forall k :: 0 <= k < |gaps| ==> |gaps[k]| == ctx.n
    modifies wq, z
    ensures AllClusters(s0.q.r)
    ensures IsIdleAt(ctx, s0, tid, wq.View(), z[..], states, steps)
    ensures HasTurned(ctx, s0.q, !ctx.funneled || tid == 0, arrived, gaps, numLeft, outcomes, wq.View())
    ensures ok ==> |outcomes| == |s0.q.r|
    ensures !ok ==> wq.r != [] && ctx.n <= wq.r[0].depth
  {
    var numTasks := |wq.r|;
    var mayProcess := !ctx.funneled || tid == 0;
    states, steps, outcomes := [s0], [], [];
    QueueHasClusters(ctx, s0.z, s0.q);
    for t := 0 to numTasks
      invariant IsIdleAt(ctx, s0, tid, wq.View(), z[..], states, steps)
      invariant |outcomes| == t && HasTurned(ctx, s0.q, mayProcess, arrived, gaps, numLeft, outcomes, wq.View())
    {
      ghost var outcome := Incomplete;
      ghost var q := wq.View();
      TurnFront(ctx, s0.q, mayProcess, arrived, gaps, numLeft, outcomes, q);
      if mayProcess {
        if wq.r[0].depth >= ctx.n {
          return false, outcomes, states, steps;
        }
        outcome, states, steps := ProcessFront(ctx, wq, z, numLeft, arrived[t], gaps[t], s0, tid, states, steps);
      } else {
        states, steps := TurnOverFront(ctx, wq, z[..], s0, tid, states, steps);
      }
      TurnNext(ctx, s0.q, mayProcess, arrived, gaps, numLeft, outcomes, q, outcome);
      outcomes := outcomes + [outcome];
    }
    ok := true;
  }

  lemma QueueHasClusters(ctx: Context, z: seq<Column>, q: Queues)
    requires QueuesOk(ctx, z, q)
    ensures AllClusters(q.r)
  {
    forall k | 0 <= k < |q.r| ensures q.r[k].Cluster? {
      assert q.r[k] in q.r;
    }
  }

  function Waiting(r: seq<Task>, mayProcess: bool): seq<Task>
    requires AllClusters(r)
  {
    seq(|r|, k requires 0 <= k < |r| => if mayProcess then Waits(r[k]) else r[k])
  }

  lemma TakeFront(r: seq<Task>, back: seq<Task>, n: nat)
    requires 0 < n <= |r|
    ensures (r[n-1..] + back)[1..] == r[n..] + back
    ensures r[..n] == r[..n-1] + [r[n-1]]
  {
  }

  lemma WaitingNext(r: seq<Task>, t: Task, mayProcess: bool)
    requires t.Cluster? && AllClusters(r)
    ensures Waiting(r + [t], mayProcess) == Waiting(r, mayProcess) + [if mayProcess then Waits(t) else t]
  {
  }

  lemma {:induction false} TurnKeepsOrder(q: Queues, mayProcess: bool, outcomes: seq<Outcome>, n: nat)
    requires n <= |q.r| && n <= |outcomes| && AllClusters(q.r)
    requires mayProcess ==> forall k :: 0 <= k < |outcomes| ==> outcomes[k].Incomplete?
    ensures AfterTurn(q, mayProcess, outcomes, n) == q.(r := q.r[n..] + Waiting(q.r[..n], mayProcess))
  {
    if n == 0 {
    } else {
      TurnKeepsOrder(q, mayProcess, outcomes, n - 1);
      TakeFront(q.r, Waiting(q.r[..n-1], mayProcess), n);
      WaitingNext(q.r[..n-1], q.r[n-1], mayProcess);
    }
  }

  // A thread that may not process clusters leaves the queue exactly as it was, and
  // one whose messages have not arrived leaves every task in its place, waiting.
  lemma TurnOverKeepsOrder(q: Queues, mayProcess: bool, outcomes: seq<Outcome>)
    requires |q.r| == |outcomes| && AllClusters(q.r)
    requires mayProcess ==> forall k :: 0 <= k < |outcomes| ==> outcomes[k].Incomplete?
    ensures AfterTurn(q, mayProcess, outcomes, |q.r|) == q.(r := Waiting(q.r, mayProcess))
    ensures !mayProcess ==> AfterTurn(q, mayProcess, outcomes, |q.r|) == q
  {
    TurnKeepsOrder(q, mayProcess, outcomes, |q.r|);
    assert q.r[..|q.r|] == q.r;
  }
}
