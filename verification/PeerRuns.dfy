// The runs of two processes side by side: they create the same shared clusters, as
// long as they find the same gaps, and post their messages to each other in the
// same order.
module PeerRuns {
  import opened Tasks
  import opened Subtasks
  import opened InitQueue
  import opened Scheduler
  import opened SchedulerSteps
  import opened SchedulerRuns
  import opened Lineage
  import opened Messages
  import opened Peers

  // A run of one process, from the tasks that its init_workQ creates.
  datatype Run = Run(ctx: Context, states: seq<State>, steps: seq<Step>)

  // What init_workQ is given, the same on all processes.
  datatype Input = Input(isplit: seq<nat>, gap: seq<bool>, absGap: seq<bool>)

  ghost predicate IsRun(r: Run, input: Input) {
    && IsExecution(r.ctx, r.states, r.steps)
    && IsInput(r.ctx, input.isplit, input.gap, input.absGap)
    && r.states[0].workers[0].act.Emitting?
    && IsInitial(r.ctx, input.isplit, input.gap, input.absGap, MaxSizeAtStart(r.ctx), r.states[0].workers[0].act.todo)
  }

  function Last(r: Run): State
    requires r.states != []
  {
    r.states[|r.states|-1]
  }

  // Step j splits cluster cl, with its gaps as they then are.
  ghost predicate Splits(r: Run, j: nat, cl: Task)
    requires |r.states| == |r.steps| + 1
  {
    j < |r.steps| && IsSplitOf(r.states[j], r.steps[j], cl)
  }

  // Step j computes and refines cluster cl; then its messages are sent.
  ghost predicate Posts(r: Run, j: nat, cl: Task)
    requires |r.states| == |r.steps| + 1
  {
    j < |r.steps| && IsRenewalOf(r.states[j], r.steps[j], cl)
  }

  lemma RunStep(r: Run, input: Input, k: nat)
    requires IsRun(r, input) && k < |r.steps|
    ensures Sized(r.ctx, r.states[k]) && Inv(r.ctx, r.states[k]) && FreshState(r.states[k])
    ensures Next(r.ctx, r.states[k], r.steps[k], r.states[k+1])
  {
    RunKeepsInv(r.ctx, r.states, r.steps, k);
    RunKeepsFresh(r.ctx, r.states, r.steps, k);
    assert IsStep(r.ctx, r.states, r.steps, k);
  }

  // Having a cluster means owning an index of it.
  lemma HasIsLive(r: Run, input: Input, k: nat, t: Task)
    requires IsRun(r, input) && k < |r.states| && Has(r.states[k], t)
    ensures IsLive(r.ctx, t)
  {
    RunKeepsInv(r.ctx, r.states, r.steps, k);
    FoundIsLive(r.ctx, r.states[k], t);
  }

  lemma FoundIsLive(ctx: Context, s: State, t: Task)
    requires QueuesOk(ctx, s.z, s.q) && WorkersOk(ctx, s) && Has(s, t)
    ensures IsLive(ctx, t)
  {
    if t in s.q.c || t in s.q.r {
    } else {
      var w :| 0 <= w < |s.workers| && t in Held(s.workers[w]);
      HeldIsLive(ctx, s.z, w, s.workers[w], t);
    }
  }

  lemma HeldIsLive(ctx: Context, z: seq<Column>, w: nat, worker: Worker, t: Task)
    requires WorkerOk(ctx, z, w, worker) && t in Held(worker)
    ensures IsLive(ctx, t)
  {
  }

  // Being split.
  lemma SplitIsIn(r: Run, input: Input, j: nat, cl: Task)
    requires IsRun(r, input) && Splits(r, j, cl)
    ensures Has(r.states[j], cl) && cl.parent == Renewed && IsCluster(r.ctx, cl)
    ensures var step := r.steps[j];
            |step.gap| == r.ctx.n && IsSplit(r.ctx, step.gap, cl, step.maxSize, step.ts)
    ensures forall t :: t in r.steps[j].ts && t.Cluster? ==> Has(r.states[j+1], t)
  {
    RunStep(r, input, j);
    SplitStep(r.ctx, r.states[j], r.steps[j], r.states[j+1], cl);
  }

  lemma SplitStep(ctx: Context, s: State, step: Step, s': State, cl: Task)
    requires Inv(ctx, s) && Next(ctx, s, step, s') && IsSplitOf(s, step, cl)
    ensures Has(s, cl) && cl.parent == Renewed && IsCluster(ctx, cl)
    ensures |step.gap| == ctx.n && IsSplit(ctx, step.gap, cl, step.maxSize, step.ts)
    ensures forall t :: t in step.ts && t.Cluster? ==> Has(s', t)
  {
    assert WorkerOk(ctx, s.z, step.w, s.workers[step.w]);
    SplitBefore(ctx, s, step, s', cl);
    SplitAfter(ctx, s, step, s');
  }

  lemma SplitBefore(ctx: Context, s: State, step: Step, s': State, cl: Task)
    requires Sized(ctx, s) && Next(ctx, s, step, s') && IsSplitOf(s, step, cl)
    requires WorkerOk(ctx, s.z, step.w, s.workers[step.w])
    ensures Has(s, cl) && cl.parent == Renewed && IsCluster(ctx, cl)
    ensures |step.gap| == ctx.n && IsSplit(ctx, step.gap, cl, step.maxSize, step.ts)
  {
    HeldIsHeld(s.workers, step.w, cl);
  }

  lemma SplitAfter(ctx: Context, s: State, step: Step, s': State)
    requires Sized(ctx, s) && Next(ctx, s, step, s') && step.Split?
    ensures forall t :: t in step.ts && t.Cluster? ==> Has(s', t)
  {
    assert s'.workers[step.w].act == Emitting(step.ts);
    EmittedIsHeld(s', step.w);
  }

  lemma EmittedIsHeld(s: State, w: nat)
    requires w < |s.workers| && s.workers[w].act.Emitting?
    ensures forall t :: t in s.workers[w].act.todo && t.Cluster? ==> Has(s, t)
  {
    forall t | t in s.workers[w].act.todo && t.Cluster? ensures Has(s, t) {
      HeldIsHeld(s.workers, w, t);
    }
  }

  // One step on from a cluster that it does not split.
  lemma Forward(r: Run, input: Input, k: nat, t: Task) returns (t': Task)
    requires IsRun(r, input) && k < |r.steps| && Has(r.states[k], t) && !Splits(r, k, t)
    ensures Has(r.states[k+1], t') && SameCluster(t, t')
  {
    RunStep(r, input, k);
    t' := HasContinuation(r.ctx, r.states[k], r.steps[k], r.states[k+1], t);
  }

  // From a cluster on: it stays until it is split.
  lemma Fate(r: Run, input: Input, k: nat, t: Task) returns (split: bool, j: nat, u: Task)
    requires IsRun(r, input) && k < |r.states| && Has(r.states[k], t)
    ensures SameCluster(t, u)
    ensures if split then Splits(r, j, u) else Has(Last(r), u)
    decreases |r.states| - k
  {
    if k == |r.steps| {
      split, j, u := false, 0, t;
    } else if Splits(r, k, t) {
      split, j, u := true, k, t;
    } else {
      var t' := Forward(r, input, k, t);
      split, j, u := Fate(r, input, k + 1, t');
    }
  }

  // One step back from a cluster.
  lemma Back(r: Run, input: Input, k: nat, t: Task) returns (created: bool, t': Task)
    requires IsRun(r, input) && k < |r.steps| && Has(r.states[k+1], t)
    ensures created ==> Splits(r, k, t') && t in r.steps[k].ts && t.parent != Renewed
    ensures !created ==> Has(r.states[k], t') && SameCluster(t, t')
    ensures !created && t.parent == Renewed && t'.parent != Renewed ==> Posts(r, k, t')
  {
    RunStep(r, input, k);
    t' := HasOrigin(r.ctx, r.states[k], r.steps[k], r.states[k+1], t);
    created := r.steps[k].Split? && t in r.steps[k].ts;
    if created {
      var step := r.steps[k];
      t' := r.states[k].workers[step.w].act.cl;
      SplitIsFresh(r.ctx, step.gap, t', step.maxSize, step.ts);
    }
  }

  // Back from a cluster: it is one of the initial tasks, or a split has created it.
  lemma Birth(r: Run, input: Input, k: nat, t: Task) returns (initial: bool, j: nat, cl: Task, u: Task)
    requires IsRun(r, input) && k < |r.states| && Has(r.states[k], t)
    ensures SameCluster(t, u)
    ensures if initial then u in r.states[0].workers[0].act.todo
            else j < k && Splits(r, j, cl) && u in r.steps[j].ts
    decreases k
  {
    if k == 0 {
      InitIsFresh(r.ctx, r.states[0]);
      initial, j, cl, u := true, 0, t, t;
    } else {
      var created, t' := Back(r, input, k - 1, t);
      if created {
        initial, j, cl, u := false, k - 1, t', t;
      } else {
        initial, j, cl, u := Birth(r, input, k - 1, t');
      }
    }
  }

  // A cluster with its own representation has been refined, so its messages are sent.
  lemma RenewedIsPosted(r: Run, input: Input, k: nat, t: Task) returns (j: nat, u: Task)
    requires IsRun(r, input) && k < |r.states| && Has(r.states[k], t) && t.parent == Renewed
    ensures SameCluster(t, u) && j < k && Posts(r, j, u)
    decreases k
  {
    if k == 0 {
      InitIsFresh(r.ctx, r.states[0]);
    } else {
      var _, t' := Back(r, input, k - 1, t);
      if t'.parent == Renewed {
        j, u := RenewedIsPosted(r, input, k - 1, t');
      } else {
        j, u := k - 1, t';
      }
    }
  }

  // Two processes.

  // Where both split the same cluster, and it is less than d deep, they find the
  // same gaps inside it.
  ghost predicate AgreeBelow(p: Run, q: Run, d: nat)
    requires |p.states| == |p.steps| + 1 && |q.states| == |q.steps| + 1
  {
    forall i: nat, j: nat, t, u :: Splits(p, i, t) && Splits(q, j, u) && SameCluster(t, u) && t.depth < d ==>
      AgreeOn(p.steps[i].gap, q.steps[j].gap, t)
  }

  ghost predicate AgreeOn(gapP: seq<bool>, gapQ: seq<bool>, t: Task) {
    |gapP| == |gapQ| && t.last < |gapP| && SameInside(gapP, gapQ, t.first, t.last)
  }

  ghost predicate ArePeers(p: Run, q: Run, input: Input, d: nat) {
    && IsRun(p, input) && IsRun(q, input)
    && p.ctx.iproc == q.ctx.iproc && p.ctx.n == q.ctx.n
    && AgreeBelow(p, q, d)
  }

  lemma PeersAreMutual(p: Run, q: Run, input: Input, d: nat)
    requires ArePeers(p, q, input, d)
    ensures ArePeers(q, p, input, d)
  {
    AgreeingIsMutual(p, q, d);
  }

  lemma AgreeingIsMutual(p: Run, q: Run, d: nat)
    requires |p.states| == |p.steps| + 1 && |q.states| == |q.steps| + 1 && AgreeBelow(p, q, d)
    ensures AgreeBelow(q, p, d)
  {
    forall i: nat, j: nat, t, u | Splits(q, i, t) && Splits(p, j, u) && SameCluster(t, u) && t.depth < d
      ensures AgreeOn(q.steps[i].gap, p.steps[j].gap, t)
    {
      assert SameCluster(u, t);
      assert AgreeOn(p.steps[j].gap, q.steps[i].gap, u);
    }
  }

  // u is the cluster t or an ancestor of it.
  predicate IsOver(u: Task, t: Task) {
    SameCluster(t, u) || (u.depth < t.depth && u.first <= t.first && t.last <= u.last)
  }

  ghost predicate TakesPart(r: Run, t: Task) {
    t.last < |r.ctx.iproc| && Involved(r.ctx.iproc, r.ctx.pid, t.first, t.last)
  }

  // Process q has split the cluster t, or it still has t or an ancestor of it.
  ghost predicate IsAccounted(q: Run, t: Task, split: bool, j: nat, u: Task)
    requires |q.states| == |q.steps| + 1
  {
    if split then Splits(q, j, u) && SameCluster(t, u) else Has(Last(q), u) && IsOver(u, t)
  }

  // Whenever p has a cluster in which q owns an index, q has it too, sooner or later.
  lemma {:induction false} PeerHasSame(p: Run, q: Run, input: Input, d: nat, k: nat, t: Task)
    returns (split: bool, j: nat, u: Task)
    requires ArePeers(p, q, input, d) && k < |p.states| && Has(p.states[k], t) && t.depth <= d
    requires TakesPart(q, t)
    ensures IsAccounted(q, t, split, j, u)
    decreases t.depth
  {
    var initial, i, cl, t0 := Birth(p, input, k, t);
    if initial {
      split, j, u := RootIsSame(p, q, input, t0);
    } else {
      ParentTakesPart(p, q, input, i, cl, t0);
      split, j, u := PeerHasSame(p, q, input, d, i, cl);
      if split {
        split, j, u := ChildIsSame(p, q, input, d, i, cl, t0, j, u);
      }
    }
  }

  lemma ParentTakesPart(p: Run, q: Run, input: Input, i: nat, cl: Task, t: Task)
    requires IsRun(p, input) && p.ctx.iproc == q.ctx.iproc
    requires Splits(p, i, cl) && t in p.steps[i].ts && t.Cluster? && TakesPart(q, t)
    ensures Has(p.states[i], cl) && TakesPart(q, cl)
    ensures t.depth == cl.depth + 1 && cl.first <= t.first && t.last <= cl.last
  {
    SplitIsIn(p, input, i, cl);
    PartOfCluster(p.ctx, q.ctx, p.steps[i].gap, cl, p.steps[i].maxSize, p.steps[i].ts, t);
  }

  lemma RootIsSame(p: Run, q: Run, input: Input, t: Task) returns (split: bool, j: nat, u: Task)
    requires IsRun(p, input) && IsRun(q, input) && p.ctx.iproc == q.ctx.iproc
    requires t in p.states[0].workers[0].act.todo && t.Cluster? && TakesPart(q, t)
    ensures IsAccounted(q, t, split, j, u)
  {
    var u0 := SameRoot(p, q, input, t);
    EmittedIsHeld(q.states[0], 0);
    split, j, u := Fate(q, input, 0, u0);
  }

  lemma SameRoot(p: Run, q: Run, input: Input, t: Task) returns (u: Task)
    requires IsRun(p, input) && IsRun(q, input) && p.ctx.iproc == q.ctx.iproc
    requires t in p.states[0].workers[0].act.todo && t.Cluster? && TakesPart(q, t)
    ensures u in q.states[0].workers[0].act.todo && SameCluster(t, u)
  {
    u := PeersCreateSameRoot(p.ctx, q.ctx, input.isplit, input.gap, input.absGap,
                             MaxSizeAtStart(p.ctx), MaxSizeAtStart(q.ctx),
                             p.states[0].workers[0].act.todo, q.states[0].workers[0].act.todo, t);
  }

  lemma PartOfCluster(ctxP: Context, ctxQ: Context, gap: seq<bool>, cl: Task, maxSize: nat, ts: seq<Task>, t: Task)
    requires IsCluster(ctxP, cl) && |gap| == ctxP.n && IsSplit(ctxP, gap, cl, maxSize, ts) && t in ts && t.Cluster?
    requires ctxP.iproc == ctxQ.iproc && t.last < |ctxQ.iproc|
    requires Involved(ctxQ.iproc, ctxQ.pid, t.first, t.last)
    ensures t.depth == cl.depth + 1 && cl.first <= t.first && t.last <= cl.last
    ensures cl.last < |ctxQ.iproc| && Involved(ctxQ.iproc, ctxQ.pid, cl.first, cl.last)
  {
    assert IsSubtask(ctxP, gap, cl, maxSize, t);
  }

  // Both have split the same cluster; then q creates the same child.
  lemma ChildIsSame(p: Run, q: Run, input: Input, d: nat, i: nat, cl: Task, t: Task, i': nat, cl': Task)
    returns (split: bool, j: nat, u: Task)
    requires ArePeers(p, q, input, d) && cl.depth < d && Splits(p, i, cl) && Splits(q, i', cl') && SameCluster(cl, cl')
    requires t in p.steps[i].ts && t.Cluster? && TakesPart(q, t)
    ensures IsAccounted(q, t, split, j, u)
  {
    SplitIsIn(p, input, i, cl);
    SplitIsIn(q, input, i', cl');
    assert AgreeOn(p.steps[i].gap, q.steps[i'].gap, cl);
    var u0 := PeersCreateSameCluster(p.ctx, q.ctx, p.steps[i].gap, q.steps[i'].gap, cl, cl',
                                     p.steps[i].maxSize, q.steps[i'].maxSize, p.steps[i].ts, q.steps[i'].ts, t);
    split, j, u := Fate(q, input, i' + 1, u0);
  }

  // p ever has a shared cluster t and q owns an index of t: then q has refined t,
  // and posted its messages, by the time its counter is zero.
  lemma FinishedHasPosted(p: Run, q: Run, input: Input, d: nat, k: nat, t: Task) returns (j: nat, u: Task)
    requires ArePeers(p, q, input, d) && k < |p.states| && Has(p.states[k], t) && t.depth <= d
    requires TakesPart(q, t) && Last(q).numLeft <= 0
    ensures SameCluster(t, u) && Posts(q, j, u)
  {
    var split, i, cl := PeerHasSame(p, q, input, d, k, t);
    if split {
      j, u := SplitIsPosted(q, input, i, cl);
    } else {
      NothingIsLeft(q, input, cl);
    }
  }

  lemma SplitIsPosted(q: Run, input: Input, i: nat, cl: Task) returns (j: nat, u: Task)
    requires IsRun(q, input) && Splits(q, i, cl)
    ensures SameCluster(cl, u) && Posts(q, j, u) && j < i
  {
    SplitIsIn(q, input, i, cl);
    j, u := RenewedIsPosted(q, input, i, cl);
  }

  lemma NothingIsLeft(q: Run, input: Input, t: Task)
    requires IsRun(q, input) && Last(q).numLeft <= 0
    ensures !Has(Last(q), t)
  {
    var s := Last(q);
    RunKeepsInv(q.ctx, q.states, q.steps, |q.steps|);
    DrainedIsDone(q.ctx, s);
  }

  // The order of messages.

  datatype Key = Key(first: nat, last: nat, depth: nat)

  function KeyOf(t: Task): Key {
    Key(t.first, t.last, t.depth)
  }

  // The clusters that r posts for process q, in order, whose messages start at
  // index tag. `begin` says where the message of one of the two processes for an
  // interval starts (Messages.MyBegin), which is also its tag.
  ghost function Posted(r: Run, q: int, begin: (nat, nat) -> nat, tag: nat, n: nat): seq<Key>
    requires |r.states| == |r.steps| + 1 && n <= |r.steps|
  {
    if n == 0 then [] else Posted(r, q, begin, tag, n - 1) + PostedAt(r, q, begin, tag, n - 1)
  }

  ghost function PostedAt(r: Run, q: int, begin: (nat, nat) -> nat, tag: nat, k: nat): seq<Key>
    requires |r.states| == |r.steps| + 1 && k < |r.steps|
  {
    var step := r.steps[k];
    if step.Renew? && step.w < |r.states[k].workers| && r.states[k].workers[step.w].act.Busy?
       && IsFor(r, q, begin, tag, r.states[k].workers[step.w].act.cl)
    then [KeyOf(r.states[k].workers[step.w].act.cl)]
    else []
  }

  ghost predicate IsFor(r: Run, q: int, begin: (nat, nat) -> nat, tag: nat, t: Task) {
    t.last < |r.ctx.iproc| && Involved(r.ctx.iproc, q, t.first, t.last) && begin(t.first, t.last) == tag
  }

  // A message starts inside its cluster.
  ghost predicate BeginsInside(begin: (nat, nat) -> nat) {
    forall first: nat, last: nat :: first <= last ==> first <= begin(first, last) <= last
  }

  lemma {:induction false} PostedFrom(r: Run, q: int, begin: (nat, nat) -> nat, tag: nat, n: nat, x: nat)
    returns (k: nat, t: Task)
    requires |r.states| == |r.steps| + 1 && n <= |r.steps| && x < |Posted(r, q, begin, tag, n)|
    ensures k < n && Posts(r, k, t) && IsFor(r, q, begin, tag, t) && Posted(r, q, begin, tag, n)[x] == KeyOf(t)
    ensures x == |Posted(r, q, begin, tag, k)|
  {
    if x < |Posted(r, q, begin, tag, n - 1)| {
      k, t := PostedFrom(r, q, begin, tag, n - 1, x);
    } else {
      k, t := n - 1, r.states[n-1].workers[r.steps[n-1].w].act.cl;
    }
  }

  lemma {:induction false} PostedHas(r: Run, q: int, begin: (nat, nat) -> nat, tag: nat, n: nat, k: nat, t: Task)
    requires |r.states| == |r.steps| + 1 && k < n <= |r.steps| && Posts(r, k, t) && IsFor(r, q, begin, tag, t)
    ensures KeyOf(t) in Posted(r, q, begin, tag, n)
  {
    if k == n - 1 {
      assert PostedAt(r, q, begin, tag, k) == [KeyOf(t)];
    } else {
      PostedHas(r, q, begin, tag, n - 1, k, t);
    }
  }

  lemma {:induction false} PostedGrows(r: Run, q: int, begin: (nat, nat) -> nat, tag: nat, k: nat, n: nat)
    requires |r.states| == |r.steps| + 1 && k <= n <= |r.steps|
    ensures |Posted(r, q, begin, tag, k)| <= |Posted(r, q, begin, tag, n)|
    decreases n
  {
    if k == n {
    } else {
      PostedGrows(r, q, begin, tag, k, n - 1);
    }
  }

  predicate Descends(keys: seq<Key>) {
    forall x, y :: 0 <= x < y < |keys| ==> keys[x].depth < keys[y].depth
  }

  // Messages of one process with the same tag are posted in the order of depth.
  lemma PostedDescends(r: Run, input: Input, q: int, begin: (nat, nat) -> nat, tag: nat)
    requires IsRun(r, input) && BeginsInside(begin)
    ensures Descends(Posted(r, q, begin, tag, |r.steps|))
  {
    var keys := Posted(r, q, begin, tag, |r.steps|);
    forall x, y | 0 <= x < y < |keys| ensures keys[x].depth < keys[y].depth {
      var j, t := PostedFrom(r, q, begin, tag, |r.steps|, x);
      var k, u := PostedFrom(r, q, begin, tag, |r.steps|, y);
      if k <= j {
        PostedGrows(r, q, begin, tag, k, j);
      }
      PostIsIn(r, input, j, t);
      PostIsIn(r, input, k, u);
      RenewalsDescend(r.ctx, r.states, r.steps, j, k, t, u, tag);
    }
  }

  lemma PostIsIn(r: Run, input: Input, k: nat, t: Task)
    requires IsRun(r, input) && Posts(r, k, t)
    ensures Has(r.states[k], t) && IsLive(r.ctx, t)
  {
    RenewalIsFresh(r.ctx, r.states, r.steps, k, t);
    HasIsLive(r, input, k, t);
  }

  // Messages match.

  // The clusters whose messages with this tag p posts for q, or q for p.
  ghost function PostedFor(p: Run, q: Run, begin: (nat, nat) -> nat, tag: nat): seq<Key>
    requires |p.states| == |p.steps| + 1
  {
    Posted(p, q.ctx.pid, begin, tag, |p.steps|)
  }

  lemma PostOf(p: Run, q: Run, input: Input, begin: (nat, nat) -> nat, tag: nat, x: nat) returns (k: nat, t: Task)
    requires IsRun(p, input) && x < |PostedFor(p, q, begin, tag)|
    ensures Posts(p, k, t) && IsFor(p, q.ctx.pid, begin, tag, t) && PostedFor(p, q, begin, tag)[x] == KeyOf(t)
    ensures Has(p.states[k], t) && IsLive(p.ctx, t)
  {
    k, t := PostedFrom(p, q.ctx.pid, begin, tag, |p.steps|, x);
    PostIsIn(p, input, k, t);
  }

  // Once p has posted a cluster t that contains index i, what it has left there
  // has gone past t.
  lemma PostIsPassed(p: Run, input: Input, k: nat, t: Task, u: Task, i: int)
    requires IsRun(p, input) && Posts(p, k, t) && Contains(t, i) && Has(Last(p), u) && Contains(u, i)
    ensures IsPast(u, t.depth)
  {
    RenewalIsPassed(p.ctx, p.states, p.steps, k, t, i);
    RunKeepsPassed(p.ctx, p.states, p.steps, k + 1, |p.steps|, i, t.depth);
  }

  lemma SameIsFor(p: Run, q: Run, begin: (nat, nat) -> nat, tag: nat, j: nat, t: Task, u: Task)
    requires |p.states| == |p.steps| + 1 && Posts(p, j, u) && SameCluster(t, u) && TakesPart(q, t)
    requires p.ctx.iproc == q.ctx.iproc && begin(t.first, t.last) == tag
    ensures KeyOf(t) in PostedFor(p, q, begin, tag)
  {
    PostedHas(p, q.ctx.pid, begin, tag, |p.steps|, j, u);
  }

  // q has posted v, and p has posted t, which is as deep as v or deeper, with the
  // same tag: then p has posted v too.
  lemma PassedIsPosted(p: Run, q: Run, input: Input, d: nat, begin: (nat, nat) -> nat, tag: nat, k: nat, t: Task,
                       j: nat, v: Task)
    requires ArePeers(q, p, input, d) && BeginsInside(begin)
    requires Posts(p, k, t) && Contains(t, tag)
    requires Posts(q, j, v) && IsFor(q, p.ctx.pid, begin, tag, v) && v.Cluster? && v.depth <= t.depth && v.depth <= d
    ensures KeyOf(v) in PostedFor(p, q, begin, tag)
  {
    PostIsIn(q, input, j, v);
    var split, i, u := PeerHasSame(q, p, input, d, j, v);
    var i', u';
    if split {
      i', u' := SplitIsPosted(p, input, i, u);
    } else {
      i', u' := RestIsPosted(p, input, k, t, u, v, tag);
    }
    SameIsFor(p, q, begin, tag, i', v, u');
  }

  // What p has left of v or an ancestor of v can only be v itself, refined.
  lemma RestIsPosted(p: Run, input: Input, k: nat, t: Task, u: Task, v: Task, i: int) returns (j: nat, u': Task)
    requires IsRun(p, input) && Posts(p, k, t) && Contains(t, i) && Has(Last(p), u)
    requires IsOver(u, v) && Contains(v, i) && v.depth <= t.depth
    ensures Posts(p, j, u') && SameCluster(v, u')
  {
    PostIsPassed(p, input, k, t, u, i);
    j, u' := RenewedIsPosted(p, input, |p.steps|, u);
  }

  // The less deep one of two messages with the same number is the other.
  lemma LowerMatches(p: Run, q: Run, input: Input, d: nat, begin: (nat, nat) -> nat, tag: nat, x: nat)
    requires ArePeers(q, p, input, d) && BeginsInside(begin)
    requires IsRun(p, input)
    requires var a, b := PostedFor(p, q, begin, tag), PostedFor(q, p, begin, tag);
             && x < |a| && x < |b| && b[x].depth <= a[x].depth && b[x].depth <= d
             && forall y :: 0 <= y < x ==> a[y] == b[y]
    ensures PostedFor(p, q, begin, tag)[x] == PostedFor(q, p, begin, tag)[x]
  {
    var a, b := PostedFor(p, q, begin, tag), PostedFor(q, p, begin, tag);
    PostedDescends(p, input, q.ctx.pid, begin, tag);
    PostedDescends(q, input, p.ctx.pid, begin, tag);
    var k, t := PostOf(p, q, input, begin, tag, x);
    var j, v := PostOf(q, p, input, begin, tag, x);
    PassedIsPosted(p, q, input, d, begin, tag, k, t, j, v);
    IsAtSamePlace(a, b, x);
  }

  lemma IsAtSamePlace(a: seq<Key>, b: seq<Key>, x: nat)
    requires Descends(a) && Descends(b) && x < |a| && x < |b| && b[x].depth <= a[x].depth && b[x] in a
    requires forall y :: 0 <= y < x ==> a[y] == b[y]
    ensures a[x] == b[x]
  {
    var z :| 0 <= z < |a| && a[z] == b[x];
  }

  // Nested clusters may have the same tag, but at any time the x-th message that
  // one of two processes has posted under a tag and the x-th that the other has
  // posted are for the same cluster, if the processes have agreed on the gaps of
  // all clusters less deep. As messages between two processes with one tag do not
  // overtake each other (section 3.5 of MPI 3.0), a message is received for the
  // cluster for which it was sent.
  lemma {:induction false} MessagesMatch(p: Run, q: Run, input: Input, d: nat, begin: (nat, nat) -> nat, tag: nat,
                                         x: nat)
    requires ArePeers(p, q, input, d) && BeginsInside(begin)
    requires var a, b := PostedFor(p, q, begin, tag), PostedFor(q, p, begin, tag);
             x < |a| && x < |b| && (a[x].depth <= d || b[x].depth <= d)
    ensures PostedFor(p, q, begin, tag)[x] == PostedFor(q, p, begin, tag)[x]
    decreases x
  {
    var a, b := PostedFor(p, q, begin, tag), PostedFor(q, p, begin, tag);
    PostedDescends(p, input, q.ctx.pid, begin, tag);
    PostedDescends(q, input, p.ctx.pid, begin, tag);
    forall y | 0 <= y < x ensures a[y] == b[y] {
      MessagesMatch(p, q, input, d, begin, tag, y);
    }
    PeersAreMutual(p, q, input, d);
    if b[x].depth <= a[x].depth {
      LowerMatches(p, q, input, d, begin, tag, x);
    } else {
      LowerMatches(q, p, input, d, begin, tag, x);
    }
  }
}
