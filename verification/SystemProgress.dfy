// A system of processes is never stuck: as long as some counter is positive, some
// process can go on, and does not have to wait for a message that is not posted.
module SystemProgress {
  import opened Tasks
  import opened Subtasks
  import opened Scheduler
  import opened SchedulerSteps
  import opened SchedulerRuns
  import opened Termination
  import opened Depths
  import opened Lineage
  import opened Peers
  import opened PeerRuns
  import opened Systems

  // The path looks at waiting tasks and then makes progress. If it splits a shared
  // cluster, that is t, which has been refined.
  ghost predicate Reaches(ctx: Context, states: seq<State>, steps: seq<Step>, t: Task) {
    && IsPath(ctx, states, steps) && steps != []
    && !IsLooking(states[|steps|-1], steps[|steps|-1])
    && (forall k :: 0 <= k < |steps| - 1 ==> IsLooking(states[k], steps[k]))
    && OnlySplits(states, steps, t)
  }

  ghost predicate OnlySplits(states: seq<State>, steps: seq<Step>, t: Task)
    requires |states| == |steps| + 1
  {
    forall k, cl :: 0 <= k < |steps| && IsSplitOf(states[k], steps[k], cl) && Shared(cl) ==> IsRefined(t, cl)
  }

  predicate IsRefined(t: Task, cl: Task) {
    SameCluster(t, cl) && IsRenewed(t)
  }

  predicate IsRenewed(t: Task) {
    t.Cluster? && t.parent == Renewed
  }

  lemma Now(ctx: Context, s: State, step: Step, s': State, t: Task) returns (states: seq<State>, steps: seq<Step>)
    requires Sized(ctx, s) && Next(ctx, s, step, s') && !IsLooking(s, step)
    requires forall cl :: IsSplitOf(s, step, cl) && Shared(cl) ==> IsRefined(t, cl)
    ensures Reaches(ctx, states, steps, t) && states[0] == s
  {
    PathAppend(ctx, [s], [], step, s');
    states, steps := [s] + [s'], [] + [step];
  }

  lemma LookFirst(ctx: Context, s: State, step: Step, s': State, states: seq<State>, steps: seq<Step>, t: Task)
    returns (states': seq<State>, steps': seq<Step>)
    requires Sized(ctx, s) && Next(ctx, s, step, s') && IsLooking(s, step)
    requires Reaches(ctx, states, steps, t) && states[0] == s'
    ensures Reaches(ctx, states', steps', t) && states'[0] == s
  {
    PathAppend(ctx, [s], [], step, s');
    PathConcat(ctx, [s] + [s'], [] + [step], states, steps);
    states', steps' := [s] + [s'] + states[1..], [] + [step] + steps;
    forall k | 0 < k < |steps'| ensures states'[k] == states[k-1] && steps'[k] == steps[k-1] {
    }
  }

  // A thread at work takes its next step.
  lemma WorkerReaches(ctx: Context, s: State, w: nat, t: Task) returns (states: seq<State>, steps: seq<Step>)
    requires Sized(ctx, s) && w < |s.workers| && WorkerOk(ctx, s.z, w, s.workers[w]) && IsAtWork(s.workers[w])
    requires s.workers[w].act.Refined? && Shared(s.workers[w].act.cl) ==> IsRefined(t, s.workers[w].act.cl)
    ensures Reaches(ctx, states, steps, t) && states[0] == s
  {
    states, steps := WorkerProgresses(ctx, s, w);
  }

  // A thread that holds a refined cluster puts back what else it has in hand.
  lemma HolderReaches(ctx: Context, s: State, w: nat, t: Task) returns (states: seq<State>, steps: seq<Step>)
    requires Inv(ctx, s) && w < |s.workers| && s.workers[w].act.Refined?
    requires Shared(s.workers[w].act.cl) ==> IsRefined(t, s.workers[w].act.cl)
    ensures Reaches(ctx, states, steps, t) && states[0] == s
  {
    if s.workers[w].hand == [] {
      assert WorkerOk(ctx, s.z, w, s.workers[w]);
      states, steps := WorkerReaches(ctx, s, w, t);
    } else {
      PutBackKeepsInv(ctx, s, w);
      var s' := AfterPutBack(s, w);
      assert WorkerOk(ctx, s'.z, w, s'.workers[w]);
      states, steps := WorkerReaches(ctx, s', w, t);
      states, steps := LookFirst(ctx, s, PutBack(w), s', states, steps, t);
    }
  }

  // Thread 0 is free and takes a cluster from the front of the r-queue.
  lemma FrontReaches(ctx: Context, s: State, t: Task) returns (states: seq<State>, steps: seq<Step>)
    requires Inv(ctx, s) && s.workers[0] == Worker(Idle, []) && s.q.r != [] && s.q.r[0] == t && t.depth < ctx.n
    ensures Reaches(ctx, states, steps, t) && states[0] == s
  {
    assert t in s.q.r;
    var s' := SetAct(s.(q := s.q.(r := s.q.r[1..])), 0, if t.waiting then Refined(t) else Busy(t));
    assert Next(ctx, s, TakeR(0), s');
    if t.waiting {
      states, steps := WorkerReaches(ctx, s', 0, t);
      states, steps := LookFirst(ctx, s, TakeR(0), s', states, steps, t);
    } else {
      states, steps := Now(ctx, s, TakeR(0), s', t);
    }
  }

  // Turning the r-queue over brings every cluster to its front.

  function AfterPickUp(s: State): State
    requires 0 < |s.workers| && s.q.r != []
  {
    s.(q := s.q.(r := s.q.r[1..]), workers := s.workers[0 := Worker(s.workers[0].act, [s.q.r[0]])])
  }

  lemma PickUpKeepsInv(ctx: Context, s: State)
    requires Inv(ctx, s) && s.workers[0] == Worker(Idle, []) && s.q.r != []
    ensures Next(ctx, s, PickUp(0), AfterPickUp(s)) && Inv(ctx, AfterPickUp(s))
  {
    StepKeepsInv(ctx, s, PickUp(0), AfterPickUp(s));
  }

  function Turned(s: State): State
    requires 0 < |s.workers| && s.q.r != []
  {
    AfterPutBack(AfterPickUp(s), 0)
  }

  lemma TurnKeepsInv(ctx: Context, s: State, i: nat)
    requires Inv(ctx, s) && s.workers[0] == Worker(Idle, []) && 0 < i < |s.q.r|
    ensures Inv(ctx, Turned(s)) && Turned(s).workers[0] == Worker(Idle, [])
    ensures |Turned(s).q.r| == |s.q.r| && Turned(s).q.r[i-1] == s.q.r[i]
  {
    PickUpKeepsInv(ctx, s);
    PutBackKeepsInv(ctx, AfterPickUp(s), 0);
  }

  lemma TurnFirst(ctx: Context, s: State, states: seq<State>, steps: seq<Step>, t: Task)
    returns (states': seq<State>, steps': seq<Step>)
    requires Inv(ctx, s) && s.workers[0] == Worker(Idle, []) && s.q.r != []
    requires Reaches(ctx, states, steps, t) && states[0] == Turned(s)
    ensures Reaches(ctx, states', steps', t) && states'[0] == s
  {
    PickUpKeepsInv(ctx, s);
    PutBackKeepsInv(ctx, AfterPickUp(s), 0);
    states', steps' := LookFirst(ctx, AfterPickUp(s), PutBack(0), Turned(s), states, steps, t);
    states', steps' := LookFirst(ctx, s, PickUp(0), AfterPickUp(s), states', steps', t);
  }

  lemma {:induction false} QueueReaches(ctx: Context, s: State, i: nat, t: Task)
    returns (states: seq<State>, steps: seq<Step>)
    requires Inv(ctx, s) && s.workers[0] == Worker(Idle, []) && i < |s.q.r| && s.q.r[i] == t && t.depth < ctx.n
    ensures Reaches(ctx, states, steps, t) && states[0] == s
    decreases i
  {
    if i == 0 {
      states, steps := FrontReaches(ctx, s, t);
    } else {
      TurnKeepsInv(ctx, s, i);
      states, steps := QueueReaches(ctx, Turned(s), i - 1, t);
      states, steps := TurnFirst(ctx, s, states, steps, t);
    }
  }

  // Another queue is not empty, or t is in the r-queue.
  predicate IsQueued(ctx: Context, s: State, t: Task) {
    && (s.q.c != [] ==> s.q.c[0].depth < ctx.n)
    && (s.q.s == [] && s.q.c == [] ==> t in s.q.r && t.depth < ctx.n)
  }

  lemma FreeReaches(ctx: Context, s: State, t: Task) returns (states: seq<State>, steps: seq<Step>)
    requires Inv(ctx, s) && s.workers[0] == Worker(Idle, []) && IsQueued(ctx, s, t)
    ensures Reaches(ctx, states, steps, t) && states[0] == s
  {
    if s.q.s != [] {
      var u := s.q.s[0];
      states, steps := Now(ctx, s, TakeS(0), SetAct(s.(q := s.q.(s := s.q.s[1..])), 0, Solving(u, u.first, 0)), t);
    } else if s.q.c != [] {
      var u := s.q.c[0];
      states, steps := Now(ctx, s, TakeC(0), SetAct(s.(q := s.q.(c := s.q.c[1..])), 0, Busy(u)), t);
    } else {
      var i :| 0 <= i < |s.q.r| && s.q.r[i] == t;
      states, steps := QueueReaches(ctx, s, i, t);
    }
  }

  function AfterRequeue(s: State): State
    requires 0 < |s.workers| && s.workers[0].act.Refined? && s.workers[0].act.cl.Cluster?
  {
    SetAct(s.(q := s.q.(r := s.q.r + [s.workers[0].act.cl.(waiting := true)])), 0, Idle)
  }

  lemma RequeueKeepsInv(ctx: Context, s: State)
    requires Inv(ctx, s) && s.workers[0].act.Refined? && s.workers[0].hand == [] && Shared(s.workers[0].act.cl)
    ensures Next(ctx, s, Requeue(0), AfterRequeue(s)) && Inv(ctx, AfterRequeue(s))
  {
    StepKeepsInv(ctx, s, Requeue(0), AfterRequeue(s));
  }

  // Thread 0 looks, or holds a cluster whose messages may be missing: it gets free
  // by putting everything back.
  predicate IsFreeable(worker: Worker) {
    worker.act.Idle? || (worker.act.Refined? && Shared(worker.act.cl))
  }

  lemma QueuedReaches(ctx: Context, s: State, t: Task) returns (states: seq<State>, steps: seq<Step>)
    requires Inv(ctx, s) && IsFreeable(s.workers[0]) && IsQueued(ctx, s, t)
    ensures Reaches(ctx, states, steps, t) && states[0] == s
  {
    if s.workers[0].hand == [] {
      states, steps := EmptyHandReaches(ctx, s, t);
    } else {
      PutBackKeepsInv(ctx, s, 0);
      var s' := AfterPutBack(s, 0);
      states, steps := EmptyHandReaches(ctx, s', t);
      states, steps := LookFirst(ctx, s, PutBack(0), s', states, steps, t);
    }
  }

  lemma EmptyHandReaches(ctx: Context, s: State, t: Task) returns (states: seq<State>, steps: seq<Step>)
    requires Inv(ctx, s) && IsFreeable(s.workers[0]) && s.workers[0].hand == [] && IsQueued(ctx, s, t)
    ensures Reaches(ctx, states, steps, t) && states[0] == s
  {
    if s.workers[0].act.Idle? {
      states, steps := FreeReaches(ctx, s, t);
    } else {
      RequeueKeepsInv(ctx, s);
      var s' := AfterRequeue(s);
      states, steps := FreeReaches(ctx, s', t);
      states, steps := LookFirst(ctx, s, Requeue(0), s', states, steps, t);
    }
  }

  lemma PutBackQueues(ctx: Context, s: State, v: nat, t: Task)
    requires v < |s.workers| && |s.workers[v].hand| <= 1 && t in s.workers[v].hand && IsFreeable(s.workers[0])
    requires (s.q.c != [] ==> s.q.c[0].depth < ctx.n) && t.depth < ctx.n
    ensures IsFreeable(AfterPutBack(s, v).workers[0]) && IsQueued(ctx, AfterPutBack(s, v), t)
  {
    assert AfterPutBack(s, v).q.r[|s.q.r|] == t;
  }

  lemma HandReaches(ctx: Context, s: State, v: nat, t: Task) returns (states: seq<State>, steps: seq<Step>)
    requires Inv(ctx, s) && IsFreeable(s.workers[0]) && v < |s.workers| && t in s.workers[v].hand
    requires (s.q.c != [] ==> s.q.c[0].depth < ctx.n) && t.depth < ctx.n
    ensures Reaches(ctx, states, steps, t) && states[0] == s
  {
    assert WorkerOk(ctx, s.z, v, s.workers[v]);
    PutBackKeepsInv(ctx, s, v);
    PutBackQueues(ctx, s, v, t);
    var s' := AfterPutBack(s, v);
    states, steps := QueuedReaches(ctx, s', t);
    states, steps := LookFirst(ctx, s, PutBack(v), s', states, steps, t);
  }

  // What a process can do without any message: it has something to compute, or a
  // cluster that is not shared or not yet refined.

  predicate IsActive(worker: Worker) {
    || worker.act.Busy? || worker.act.Solving? || worker.act.Emitting?
    || (worker.act.Refined? && !Shared(worker.act.cl))
  }

  ghost predicate NeedsNoMessage(s: State) {
    || (exists w :: 0 <= w < |s.workers| && IsActive(s.workers[w]))
    || s.q.s != [] || s.q.c != []
    || (exists t :: Has(s, t) && !IsRenewed(t))
  }

  // t is in the r-queue, in a hand, or refined by a thread.
  ghost predicate IsAvailable(s: State, t: Task) {
    t in s.q.r || exists w :: 0 <= w < |s.workers| && HasIt(s.workers[w], t)
  }

  predicate HasIt(worker: Worker, t: Task) {
    t in worker.hand || worker.act == Refined(t)
  }

  lemma ActiveReaches(ctx: Context, s: State, w: nat, t: Task) returns (states: seq<State>, steps: seq<Step>)
    requires Inv(ctx, s) && w < |s.workers| && IsActive(s.workers[w])
    ensures Reaches(ctx, states, steps, t) && states[0] == s
  {
    if s.workers[w].act.Refined? {
      states, steps := HolderReaches(ctx, s, w, t);
    } else {
      assert WorkerOk(ctx, s.z, w, s.workers[w]);
      states, steps := WorkerReaches(ctx, s, w, t);
    }
  }

  // No thread has left while the counter is positive, so thread 0 can be freed
  // unless it is active.
  lemma StayingIsFreeable(ctx: Context, s: State)
    requires Inv(ctx, s) && s.numLeft > 0 && !IsActive(s.workers[0])
    ensures IsFreeable(s.workers[0])
  {
  }

  // A process goes on with what needs no message, or with the refined cluster t.
  lemma ProcessReaches(ctx: Context, s: State, t: Task) returns (states: seq<State>, steps: seq<Step>)
    requires Inv(ctx, s) && s.numLeft > 0 && NoneTooDeep(ctx, s)
    requires || s.q.s != [] || s.q.c != [] || IsAvailable(s, t)
             || exists w :: 0 <= w < |s.workers| && IsActive(s.workers[w])
    requires forall w :: 0 <= w < |s.workers| && s.workers[w].act == Refined(t) ==> IsRenewed(t)
    ensures Reaches(ctx, states, steps, t) && states[0] == s
  {
    if w :| 0 <= w < |s.workers| && IsActive(s.workers[w]) {
      states, steps := ActiveReaches(ctx, s, w, t);
    } else if w :| 0 <= w < |s.workers| && s.workers[w].act == Refined(t) {
      states, steps := HolderReaches(ctx, s, w, t);
    } else if w :| 0 <= w < |s.workers| && t in s.workers[w].hand {
      StayingIsFreeable(ctx, s);
      states, steps := HandReaches(ctx, s, w, t);
    } else {
      StayingIsFreeable(ctx, s);
      states, steps := QueuedReaches(ctx, s, t);
    }
  }

  // A process whose counter is positive and that has nothing to do without a message
  // has a cluster.
  lemma SomethingIsLeft(ctx: Context, s: State) returns (t: Task)
    requires Inv(ctx, s) && s.numLeft > 0 && s.q.s == [] && s.q.c == []
    requires forall w :: 0 <= w < |s.workers| ==> !IsActive(s.workers[w])
    ensures Has(s, t) && IsAvailable(s, t)
  {
    if s.q.r != [] {
      t := s.q.r[0];
      assert t in s.q.r && Shared(t);
    } else if w :| 0 <= w < |s.workers| && s.workers[w].act.Refined? {
      assert WorkerOk(ctx, s.z, w, s.workers[w]);
      t := s.workers[w].act.cl;
      HeldIsHeld(s.workers, w, t);
      assert HasIt(s.workers[w], t);
    } else {
      forall v | 0 <= v < |s.workers| ensures s.workers[v].act == Idle {
        assert WorkerOk(ctx, s.z, v, s.workers[v]) && !IsActive(s.workers[v]);
      }
      var v := SomeHand(ctx, s);
      assert WorkerOk(ctx, s.z, v, s.workers[v]);
      t := s.workers[v].hand[0];
      HeldIsHeld(s.workers, v, t);
      assert HasIt(s.workers[v], t);
    }
  }

  // Where a cluster is, in a process that has nothing active.
  lemma HasIsAvailable(ctx: Context, s: State, t: Task)
    requires WorkersOk(ctx, s) && s.q.c == [] && Has(s, t)
    requires forall w :: 0 <= w < |s.workers| ==> !IsActive(s.workers[w])
    ensures IsAvailable(s, t)
  {
    if t !in s.q.r {
      var w :| 0 <= w < |s.workers| && t in Held(s.workers[w]);
      assert !IsActive(s.workers[w]);
      assert HasIt(s.workers[w], t);
    }
  }

  lemma RefinedIsRenewed(ctx: Context, s: State, t: Task)
    requires WorkersOk(ctx, s)
    ensures forall w :: 0 <= w < |s.workers| && s.workers[w].act == Refined(t) ==> IsRenewed(t)
  {
    forall w | 0 <= w < |s.workers| && s.workers[w].act == Refined(t) ensures IsRenewed(t) {
      assert WorkerOk(ctx, s.z, w, s.workers[w]);
    }
  }

  // A process goes on with t, which is fresh or of which all messages are posted.
  lemma HasReaches(ctx: Context, s: State, t: Task) returns (states: seq<State>, steps: seq<Step>)
    requires Inv(ctx, s) && s.numLeft > 0 && NoneTooDeep(ctx, s) && Has(s, t)
    ensures Reaches(ctx, states, steps, t) && states[0] == s
  {
    RefinedIsRenewed(ctx, s, t);
    if s.q.c == [] && forall w :: 0 <= w < |s.workers| ==> !IsActive(s.workers[w]) {
      HasIsAvailable(ctx, s, t);
    }
    states, steps := ProcessReaches(ctx, s, t);
  }

  // A process with something to do that needs no message does it, and splits no
  // shared cluster.
  lemma UnhinderedReaches(ctx: Context, s: State) returns (t: Task, states: seq<State>, steps: seq<Step>)
    requires Inv(ctx, s) && s.numLeft > 0 && NoneTooDeep(ctx, s) && NeedsNoMessage(s)
    ensures Reaches(ctx, states, steps, t) && states[0] == s && !IsRenewed(t)
  {
    if u :| Has(s, u) && !IsRenewed(u) {
      t := u;
      states, steps := HasReaches(ctx, s, t);
    } else {
      t := Singletons(0, 0, 1, Interval(0, 0));
      RefinedIsRenewed(ctx, s, t);
      states, steps := ProcessReaches(ctx, s, t);
    }
  }

  // The path of process p leads to progress, and a shared cluster that it splits is
  // one of which every process involved has posted its messages.
  ghost predicate GoesOn(runs: seq<Run>, p: nat, states: seq<State>, steps: seq<Step>)
    requires p < |runs| && AreRuns(runs)
  {
    && IsPath(runs[p].ctx, states, steps) && states[0] == Last(runs[p])
    && steps != [] && !IsLooking(states[|steps|-1], steps[|steps|-1])
    && (forall k, cl :: 0 <= k < |steps| && IsSplitOf(states[k], steps[k], cl) && Shared(cl) ==> AllPosted(runs, cl))
  }

  lemma SameIsPosted(runs: seq<Run>, t: Task, cl: Task)
    requires AreRuns(runs) && AllPosted(runs, t) && SameCluster(t, cl)
    ensures AllPosted(runs, cl)
  {
    forall q | 0 <= q < |runs| && TakesPart(runs[q], cl) ensures HasPosted(runs[q], cl) {
      assert TakesPart(runs[q], t);
      var j: nat, u :| Posts(runs[q], j, u) && SameCluster(t, u);
      assert SameCluster(cl, u);
    }
  }

  lemma ReachingGoesOn(runs: seq<Run>, p: nat, states: seq<State>, steps: seq<Step>, t: Task)
    requires p < |runs| && AreRuns(runs) && Reaches(runs[p].ctx, states, steps, t) && states[0] == Last(runs[p])
    requires IsRenewed(t) ==> AllPosted(runs, t)
    ensures GoesOn(runs, p, states, steps)
  {
    forall k, cl | 0 <= k < |steps| && IsSplitOf(states[k], steps[k], cl) && Shared(cl) ensures AllPosted(runs, cl) {
      assert IsRefined(t, cl);
      SameIsPosted(runs, t, cl);
    }
  }

  lemma RunIsGood(r: Run, input: Input)
    requires PeerRuns.IsRun(r, input)
    ensures Inv(r.ctx, Last(r))
  {
    RunKeepsInv(r.ctx, r.states, r.steps, |r.steps|);
  }

  lemma HinderedWaits(r: Run, input: Input)
    requires PeerRuns.IsRun(r, input) && (Last(r).numLeft > 0 ==> !NeedsNoMessage(Last(r)))
    ensures OnlyWaits(r)
  {
    forall t | Has(Last(r), t) ensures t.parent == Renewed {
      if Last(r).numLeft <= 0 {
        NothingIsLeft(r, input, t);
      } else {
        assert IsRenewed(t);
      }
    }
  }

  // As long as some counter is positive, and no cluster is too deep for the
  // assertion, some process can make progress, and split no shared cluster on the
  // way but one of which all messages are posted.
  lemma SystemProgresses<V(!new)>(sys: System<V>, input: Input, p: nat)
    returns (p': nat, states: seq<State>, steps: seq<Step>)
    requires IsSystem(sys, input) && p < |sys.runs| && Last(sys.runs[p]).numLeft > 0
    requires forall q :: 0 <= q < |sys.runs| ==> NoneTooDeep(sys.runs[q].ctx, Last(sys.runs[q]))
    ensures p' < |sys.runs| && GoesOn(sys.runs, p', states, steps)
  {
    if q :| 0 <= q < |sys.runs| && Last(sys.runs[q]).numLeft > 0 && NeedsNoMessage(Last(sys.runs[q])) {
      p' := q;
      RunIsGood(sys.runs[q], input);
      var t;
      t, states, steps := UnhinderedReaches(sys.runs[q].ctx, Last(sys.runs[q]));
      ReachingGoesOn(sys.runs, q, states, steps, t);
    } else {
      forall q | 0 <= q < |sys.runs| ensures OnlyWaits(sys.runs[q]) {
        HinderedWaits(sys.runs[q], input);
      }
      p', states, steps := WaitingGoesOn(sys, input, p);
    }
  }

  lemma WaitingGoesOn<V(!new)>(sys: System<V>, input: Input, p: nat)
    returns (p': nat, states: seq<State>, steps: seq<Step>)
    requires IsSystem(sys, input) && p < |sys.runs| && Last(sys.runs[p]).numLeft > 0
    requires !NeedsNoMessage(Last(sys.runs[p]))
    requires forall q :: 0 <= q < |sys.runs| ==> NoneTooDeep(sys.runs[q].ctx, Last(sys.runs[q]))
    requires forall q :: 0 <= q < |sys.runs| ==> OnlyWaits(sys.runs[q])
    ensures p' < |sys.runs| && GoesOn(sys.runs, p', states, steps)
  {
    RunIsGood(sys.runs[p], input);
    var t := SomethingIsLeft(sys.runs[p].ctx, Last(sys.runs[p]));
    var t';
    p', t' := NoDeadlock(sys, input, p, t);
    var r := sys.runs[p'];
    RunIsGood(r, input);
    if Last(r).numLeft <= 0 {
      NothingIsLeft(r, input, t');
    }
    states, steps := HasReaches(r.ctx, Last(r), t');
    ReachingGoesOn(sys.runs, p', states, steps, t');
  }

  // The assertion is no obstacle where every refinement opens a gap.
  lemma OpeningSystemProgresses<V(!new)>(sys: System<V>, input: Input, p: nat)
    returns (p': nat, states: seq<State>, steps: seq<Step>)
    requires IsSystem(sys, input) && p < |sys.runs| && Last(sys.runs[p]).numLeft > 0
    requires forall q :: 0 <= q < |sys.runs| ==> AllOpen(sys.runs[q].states, sys.runs[q].steps)
    ensures p' < |sys.runs| && GoesOn(sys.runs, p', states, steps)
  {
    forall q | 0 <= q < |sys.runs| ensures NoneTooDeep(sys.runs[q].ctx, Last(sys.runs[q])) {
      NoneIsTooDeep(sys.runs[q].ctx, sys.runs[q].states, sys.runs[q].steps, |sys.runs[q].steps|);
    }
    p', states, steps := SystemProgresses(sys, input, p);
  }
}
