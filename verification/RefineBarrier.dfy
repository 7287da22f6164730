// The r-queue and the barrier of refine_eigvals. A thread that splits a
// refinement puts tasks in the r-queue, takes as many tasks out of the queue as
// it found there (computing the refine tasks, putting clusters back), and then
// waits as many times as it has created tasks. Every refine task has a semaphore
// of its own, to which one post is made when the task has been computed; the
// waits are all for the semaphore of one task, the one that the variable `task`
// denotes after the queue has been turned over.
module RefineBarrier {
  import opened Integers
  import opened Refinement

  // id is the number of the semaphore.
  datatype Item = ClusterItem | RefineItem(creator: nat, id: nat)

  datatype Option<T> = None | Some(value: T)

  // total is the number of tasks that this call has created, num_tasks.
  datatype Phase =
    | Normal
    | Creating(total: nat, todo: nat)
    | Draining(total: nat, todo: nat)
    | Waiting(total: nat, left: nat)

  // held is the item a thread has taken from the queue and not finished with, and
  // task the variable of refine_eigvals. Over all calls together the thread has
  // created `created` tasks, of which `computed` have been computed.
  datatype Thread = Thread(phase: Phase, held: Option<Item>, task: Option<Item>, created: nat, computed: nat)

  datatype State = State(queue: seq<Item>, threads: seq<Thread>, sems: seq<nat>)

  datatype Step =
    | Begin(w: nat, tasks: nat)
    | Insert(w: nat)
    | InsertCluster(w: nat)
    | Snapshot(w: nat)
    | Take(w: nat)
    | TakeNothing(w: nat)
    | PutBack(w: nat)
    | KeepCluster(w: nat)
    | Compute(w: nat)
    | EndDrain(w: nat)
    | Wait(w: nat)
    | Release(w: nat)

  function SetThread(s: State, w: nat, t: Thread): State
    requires w < |s.threads|
  {
    s.(threads := s.threads[w := t])
  }

  // A thread takes something, or nothing, out of the queue.
  function Taking(t: Thread, item: Option<Item>): Thread {
    if t.phase.Draining? && t.phase.todo > 0
    then t.(phase := Draining(t.phase.total, t.phase.todo - 1), held := item, task := item)
    else t.(held := item)
  }

  predicate MayTake(phase: Phase) {
    phase.Normal? || (phase.Draining? && phase.todo > 0)
  }

  // The semaphore of a task gets its post, and its creator one more computed task.
  function AfterCompute(s: State, w: nat, item: Item): State
    requires w < |s.threads| && item.RefineItem? && item.creator < |s.threads| && item.id < |s.sems|
  {
    var threads := s.threads[w := s.threads[w].(held := None)];
    var creator := threads[item.creator];
    s.(threads := threads[item.creator := creator.(computed := creator.computed + 1)],
       sems := s.sems[item.id := s.sems[item.id] + 1])
  }

  predicate IsKnown(s: State, item: Option<Item>) {
    item.Some? && item.value.RefineItem? ==> item.value.creator < |s.threads| && item.value.id < |s.sems|
  }

  // The wait for task can end.
  predicate IsPosted(s: State, task: Option<Item>) {
    task.Some? && task.value.RefineItem? && task.value.id < |s.sems| && s.sems[task.value.id] > 0
  }

  ghost predicate Next(s: State, step: Step, s': State) {
    && step.w < |s.threads|
    && var w := step.w;
       var t := s.threads[w];
       match step
       case Begin(_, tasks) =>
         && t.phase.Normal? && t.held.None? && 0 < tasks
         && s' == SetThread(s, w, t.(phase := Creating(tasks, tasks), created := t.created + tasks))
       case Insert(_) =>
         && t.phase.Creating? && t.phase.todo > 0
         && var item := RefineItem(w, |s.sems|);
            s' == State(s.queue + [item],
                        s.threads[w := t.(phase := Creating(t.phase.total, t.phase.todo - 1), task := Some(item))],
                        s.sems + [0])
       case InsertCluster(_) =>
         && t.phase.Normal?
         && s' == s.(queue := s.queue + [ClusterItem])
       case Snapshot(_) =>
         && t.phase.Creating? && t.phase.todo == 0
         && s' == SetThread(s, w, t.(phase := Draining(t.phase.total, |s.queue|)))
       case Take(_) =>
         && MayTake(t.phase) && t.held.None? && s.queue != []
         && s' == SetThread(s.(queue := s.queue[1..]), w, Taking(t, Some(s.queue[0])))
       case TakeNothing(_) =>
         && MayTake(t.phase) && t.held.None? && s.queue == []
         && s' == SetThread(s, w, Taking(t, None))
       case PutBack(_) =>
         && t.held == Some(ClusterItem)
         && s' == SetThread(s.(queue := s.queue + [ClusterItem]), w, t.(held := None))
       case KeepCluster(_) =>
         && t.phase.Normal? && t.held == Some(ClusterItem)
         && s' == SetThread(s, w, t.(held := None))
       case Compute(_) =>
         && t.held.Some? && t.held.value.RefineItem? && IsKnown(s, t.held)
         && s' == AfterCompute(s, w, t.held.value)
       case EndDrain(_) =>
         && t.phase.Draining? && t.phase.todo == 0 && t.held.None?
         && s' == SetThread(s, w, t.(phase := Waiting(t.phase.total, t.phase.total)))
       case Wait(_) =>
         && t.phase.Waiting? && t.phase.left > 0 && IsPosted(s, t.task)
         && s' == SetThread(s.(sems := s.sems[t.task.value.id := s.sems[t.task.value.id] - 1]), w,
                            t.(phase := Waiting(t.phase.total, t.phase.left - 1)))
       case Release(_) =>
         && t.phase.Waiting? && t.phase.left == 0
         && s' == SetThread(s, w, t.(phase := Normal))
  }

  // How many refine tasks are in the queue and in the hands of threads: those of
  // one creator, or those with one number.

  datatype Key = Of(creator: nat) | Numbered(id: nat)

  predicate Matches(k: Key, item: Item) {
    item.RefineItem? && match k case Of(c) => item.creator == c case Numbered(id) => item.id == id
  }

  function InQueue(q: seq<Item>, k: Key): nat {
    if q == [] then 0 else (if Matches(k, q[0]) then 1 else 0) + InQueue(q[1..], k)
  }

  function Holds(t: Thread, k: Key): nat {
    if t.held.Some? && Matches(k, t.held.value) then 1 else 0
  }

  function InHands(ts: seq<Thread>, k: Key): nat {
    if ts == [] then 0 else Holds(ts[0], k) + InHands(ts[1..], k)
  }

  function Pending(s: State, k: Key): nat {
    InQueue(s.queue, k) + InHands(s.threads, k)
  }

  function Todo(phase: Phase): nat {
    if phase.Creating? then phase.todo else 0
  }

  lemma {:induction false} InQueueAppend(q: seq<Item>, item: Item, k: Key)
    ensures InQueue(q + [item], k) == InQueue(q, k) + if Matches(k, item) then 1 else 0
  {
    if q == [] {
      assert q + [item] == [item] && [item][1..] == [];
    } else {
      assert (q + [item])[1..] == q[1..] + [item];
      InQueueAppend(q[1..], item, k);
    }
  }

  lemma {:induction false} InHandsUpdate(ts: seq<Thread>, w: nat, t: Thread, k: Key)
    requires w < |ts|
    ensures InHands(ts[w := t], k) + Holds(ts[w], k) == InHands(ts, k) + Holds(t, k)
  {
    if w == 0 {
      assert ts[w := t][1..] == ts[1..];
    } else {
      assert ts[w := t][1..] == ts[1..][w-1 := t];
      InHandsUpdate(ts[1..], w - 1, t, k);
    }
  }

  lemma {:induction false} InHandsWitness(ts: seq<Thread>, k: Key) returns (v: nat)
    requires InHands(ts, k) > 0
    ensures v < |ts| && Holds(ts[v], k) == 1
  {
    if Holds(ts[0], k) == 1 {
      v := 0;
    } else {
      v := InHandsWitness(ts[1..], k);
      v := v + 1;
    }
  }

  lemma {:induction false} NoneInQueue(q: seq<Item>, k: Key)
    requires forall i :: 0 <= i < |q| ==> !Matches(k, q[i])
    ensures InQueue(q, k) == 0
  {
    if q == [] {
    } else {
      NoneInQueue(q[1..], k);
    }
  }

  lemma {:induction false} NoneInHands(ts: seq<Thread>, k: Key)
    requires forall v :: 0 <= v < |ts| ==> Holds(ts[v], k) == 0
    ensures InHands(ts, k) == 0
  {
    if ts == [] {
    } else {
      NoneInHands(ts[1..], k);
    }
  }

  // Only inserting and computing change what is pending.
  lemma StepPending(s: State, step: Step, s': State, k: Key)
    requires Next(s, step, s')
    ensures Pending(s', k) + (if step.Compute? then Holds(s.threads[step.w], k) else 0)
         == Pending(s, k) + (if step.Insert? && Matches(k, RefineItem(step.w, |s.sems|)) then 1 else 0)
  {
    if step.Insert? {
      InQueueAppend(s.queue, RefineItem(step.w, |s.sems|), k);
      InHandsUpdate(s.threads, step.w, s'.threads[step.w], k);
    } else if step.Compute? {
      ComputePending(s, step, s', k);
    } else {
      MovePending(s, step, s', k);
    }
  }

  lemma ComputePending(s: State, step: Step, s': State, k: Key)
    requires Next(s, step, s') && step.Compute?
    ensures Pending(s', k) + Holds(s.threads[step.w], k) == Pending(s, k)
  {
    var w := step.w;
    var t := s.threads[w];
    var threads := s.threads[w := t.(held := None)];
    var c := t.held.value.creator;
    InHandsUpdate(s.threads, w, threads[w], k);
    InHandsUpdate(threads, c, s'.threads[c], k);
  }

  lemma MovePending(s: State, step: Step, s': State, k: Key)
    requires Next(s, step, s') && !step.Insert? && !step.Compute?
    ensures Pending(s', k) == Pending(s, k)
  {
    InHandsUpdate(s.threads, step.w, s'.threads[step.w], k);
    InQueueAppend(s.queue, ClusterItem, k);
  }

  // The invariant. Tasks of x are counted; while x does not create any, the part
  // of the queue that it will not look at holds none of them; and the semaphore
  // for which x waits serves it at most once.

  ghost predicate IsSpent(s: State, task: Option<Item>) {
    task.Some? && task.value.RefineItem? && task.value.id < |s.sems|
    && s.sems[task.value.id] == 0 && Pending(s, Numbered(task.value.id)) == 0
  }

  ghost predicate NoneFrom(q: seq<Item>, from: int, x: nat) {
    forall i :: 0 <= i < |q| && from <= i ==> !Matches(Of(x), q[i])
  }

  ghost predicate PhaseOk(s: State, x: nat, t: Thread) {
    match t.phase
    case Normal => NoneFrom(s.queue, 0, x)
    case Creating(total, todo) => todo <= total && 0 < total && t.held.None?
    case Draining(total, todo) => NoneFrom(s.queue, todo, x) && 0 < total
    case Waiting(total, left) =>
      && NoneFrom(s.queue, 0, x) && t.held.None? && 0 < total
      && left <= total <= left + 1
      && (left < total ==> IsSpent(s, t.task))
  }

  ghost predicate ThreadOk(s: State, x: nat)
    requires x < |s.threads|
  {
    var t := s.threads[x];
    && t.created == t.computed + Todo(t.phase) + Pending(s, Of(x))
    && IsKnown(s, t.held) && IsKnown(s, t.task)
    && PhaseOk(s, x, t)
  }

  // A task that is waiting to be computed has not been posted; it is posted once.
  ghost predicate SemOk(s: State, id: nat)
    requires id < |s.sems|
  {
    s.sems[id] + Pending(s, Numbered(id)) <= 1
  }

  ghost predicate Inv(s: State) {
    && (forall x :: 0 <= x < |s.threads| ==> ThreadOk(s, x))
    && (forall id :: 0 <= id < |s.sems| ==> SemOk(s, id))
    && (forall i :: 0 <= i < |s.queue| ==> IsKnown(s, Some(s.queue[i])))
  }

  ghost predicate Init(s: State) {
    && s.queue == [] && s.sems == []
    && forall w :: 0 <= w < |s.threads| ==> s.threads[w] == Thread(Normal, None, None, 0, 0)
  }

  lemma InitKeepsInv(s: State)
    requires Init(s)
    ensures Inv(s)
  {
    forall x | 0 <= x < |s.threads| ensures ThreadOk(s, x) {
      NoneInHands(s.threads, Of(x));
    }
  }

  // A new number is not in use.
  lemma NewIsUnused(s: State)
    requires Inv(s)
    ensures Pending(s, Numbered(|s.sems|)) == 0
  {
    NoneInQueue(s.queue, Numbered(|s.sems|));
    forall v | 0 <= v < |s.threads| ensures Holds(s.threads[v], Numbered(|s.sems|)) == 0 {
      assert ThreadOk(s, v);
    }
    NoneInHands(s.threads, Numbered(|s.sems|));
  }

  lemma {:induction false} HolderCounts(ts: seq<Thread>, w: nat, k: Key)
    requires w < |ts|
    ensures Holds(ts[w], k) <= InHands(ts, k)
  {
    if w == 0 {
    } else {
      HolderCounts(ts[1..], w - 1, k);
    }
  }

  lemma StepKeepsSem(s: State, step: Step, s': State, id: nat)
    requires Next(s, step, s') && id < |s'.sems|
    requires if id < |s.sems| then SemOk(s, id) else Pending(s, Numbered(id)) == 0
    ensures SemOk(s', id)
  {
    StepPending(s, step, s', Numbered(id));
    HolderCounts(s.threads, step.w, Numbered(id));
  }

  // What is spent stays spent.
  lemma SpentStays(s: State, step: Step, s': State, task: Option<Item>)
    requires Next(s, step, s') && IsSpent(s, task)
    ensures IsSpent(s', task)
  {
    var k := Numbered(task.value.id);
    StepPending(s, step, s', k);
    HolderCounts(s.threads, step.w, k);
  }

  // Threads that do not take the step.
  lemma OtherKeepsPhase(s: State, step: Step, s': State, x: nat)
    requires Next(s, step, s') && x < |s.threads| && x != step.w && PhaseOk(s, x, s.threads[x])
    ensures PhaseOk(s', x, s'.threads[x])
  {
    if s.threads[x].phase.Waiting? && s.threads[x].phase.left < s.threads[x].phase.total {
      SpentStays(s, step, s', s.threads[x].task);
    }
  }

  lemma OwnStepKeepsPhase(s: State, step: Step, s': State)
    requires Next(s, step, s') && PhaseOk(s, step.w, s.threads[step.w])
    requires IsPosted(s, s.threads[step.w].task) ==> SemOk(s, s.threads[step.w].task.value.id)
    ensures PhaseOk(s', step.w, s'.threads[step.w])
  {
    var t := s.threads[step.w];
    if step.Wait? {
      StepPending(s, step, s', Numbered(t.task.value.id));
    } else if t.phase.Waiting? && t.phase.left < t.phase.total {
      SpentStays(s, step, s', t.task);
    }
  }

  lemma StepKeepsThread(s: State, step: Step, s': State, x: nat)
    requires Next(s, step, s') && x < |s.threads| && ThreadOk(s, x)
    requires forall i :: 0 <= i < |s.queue| ==> IsKnown(s, Some(s.queue[i]))
    requires PhaseOk(s', x, s'.threads[x])
    ensures ThreadOk(s', x)
  {
    StepPending(s, step, s', Of(x));
  }

  lemma StepKeepsInv(s: State, step: Step, s': State)
    requires Inv(s) && Next(s, step, s')
    ensures Inv(s')
  {
    forall x | 0 <= x < |s'.threads| ensures ThreadOk(s', x) {
      assert ThreadOk(s, x);
      if x == step.w {
        OwnStepKeepsPhase(s, step, s');
      } else {
        OtherKeepsPhase(s, step, s', x);
      }
      StepKeepsThread(s, step, s', x);
    }
    NewIsUnused(s);
    forall id | 0 <= id < |s'.sems| ensures SemOk(s', id) {
      StepKeepsSem(s, step, s', id);
    }
    StepKeepsQueue(s, step, s');
  }

  lemma StepKeepsQueue(s: State, step: Step, s': State)
    requires Next(s, step, s') && forall i :: 0 <= i < |s.queue| ==> IsKnown(s, Some(s.queue[i]))
    ensures forall i :: 0 <= i < |s'.queue| ==> IsKnown(s', Some(s'.queue[i]))
  {
  }

  // Runs.

  ghost predicate IsPath(states: seq<State>, steps: seq<Step>) {
    |states| == |steps| + 1 && forall k :: 0 <= k < |steps| ==> Next(states[k], steps[k], states[k+1])
  }

  ghost predicate IsExecution(states: seq<State>, steps: seq<Step>) {
    IsPath(states, steps) && Init(states[0])
  }

  lemma {:induction false} PathKeepsInv(states: seq<State>, steps: seq<Step>, k: nat)
    requires IsPath(states, steps) && k < |states| && Inv(states[0])
    ensures Inv(states[k])
    decreases k
  {
    if k == 0 {
    } else {
      PathKeepsInv(states, steps, k - 1);
      StepKeepsInv(states[k-1], steps[k-1], states[k]);
    }
  }

  lemma ExecutionKeepsInv(states: seq<State>, steps: seq<Step>, k: nat)
    requires IsExecution(states, steps) && k < |states|
    ensures Inv(states[k])
  {
    InitKeepsInv(states[0]);
    PathKeepsInv(states, steps, k);
  }

  // A thread that waits has none of its tasks left in the queue: each one is
  // computed or in the hands of a thread that is not waiting itself.
  lemma WaitingIsServed(states: seq<State>, steps: seq<Step>, k: nat, x: nat) returns (v: nat)
    requires IsExecution(states, steps) && k < |states| && x < |states[k].threads|
    requires states[k].threads[x].phase.Waiting? && states[k].threads[x].computed != states[k].threads[x].created
    ensures v < |states[k].threads| && Holds(states[k].threads[v], Of(x)) == 1
    ensures !states[k].threads[v].phase.Waiting?
    ensures forall i :: 0 <= i < |states[k].queue| ==> !Matches(Of(x), states[k].queue[i])
  {
    var s := states[k];
    ExecutionKeepsInv(states, steps, k);
    assert ThreadOk(s, x);
    NoneInQueue(s.queue, Of(x));
    v := InHandsWitness(s.threads, Of(x));
    assert ThreadOk(s, v);
  }

  // When a call returns.

  // The path ends with thread x leaving a barrier with the given number of tasks.
  ghost predicate EndsWithReturn(states: seq<State>, steps: seq<Step>, x: nat, tasks: nat) {
    && IsPath(states, steps) && steps != [] && x < |states[|steps|-1].threads|
    && steps[|steps|-1] == Release(x) && states[|steps|-1].threads[x].phase == Waiting(tasks, 0)
  }

  // The semaphore for which a thread waits is posted at most once, so no call that
  // has created more than one task ever returns, whatever the threads do.
  lemma SeveralTasksNeverReturn(states: seq<State>, steps: seq<Step>, x: nat, tasks: nat)
    requires EndsWithReturn(states, steps, x, tasks) && Inv(states[0])
    ensures tasks <= 1
  {
    PathKeepsInv(states, steps, |steps| - 1);
    assert ThreadOk(states[|steps|-1], x);
  }

  // With one task thread x can finish by itself: the last item it takes out of the
  // queue will be a refine task, or it was one, and has been posted.
  ghost predicate CanFinish(s: State, x: nat)
    requires x < |s.threads|
  {
    var t := s.threads[x];
    match t.phase
    case Normal => false
    case Creating(total, todo) =>
      total == 1 && todo <= 1 && (todo == 0 ==> s.queue != [] && s.queue[|s.queue|-1].RefineItem?)
    case Draining(total, todo) =>
      && total == 1 && todo <= |s.queue|
      && (todo > 0 ==> s.queue[todo-1].RefineItem?)
      && (todo == 0 ==> IsRefine(t.task) && (t.held == t.task || IsPosted(s, t.task)))
    case Waiting(total, left) =>
      total == 1 && (left > 0 ==> IsPosted(s, t.task))
  }

  predicate IsRefine(item: Option<Item>) {
    item.Some? && item.value.RefineItem?
  }

  // Its next step, where it goes ahead by itself.
  ghost predicate Goes(s: State, x: nat, step: Step, s': State) {
    && x < |s.threads| && Next(s, step, s') && step.w == x
    && (step.Release? || (x < |s'.threads| && CanFinish(s', x) && Distance(s', x) < Distance(s, x)))
  }

  // The steps left to thread x, at most.
  function Distance(s: State, x: nat): nat
    requires x < |s.threads|
  {
    var t := s.threads[x];
    (if t.held.Some? then 1 else 0) + match t.phase
                                      case Normal => 0
                                      case Creating(_, todo) => 2 * (|s.queue| + 2 * todo) + todo + 4
                                      case Draining(_, todo) => 2 * todo + 3
                                      case Waiting(_, left) => left
  }

  lemma GoesOn(s: State, x: nat) returns (step: Step, s': State)
    requires Inv(s) && x < |s.threads| && CanFinish(s, x)
    ensures Goes(s, x, step, s') && (step.Release? ==> s.threads[x].phase == Waiting(1, 0))
  {
    assert ThreadOk(s, x);
    var t := s.threads[x];
    match t.phase
    case Creating(total, todo) =>
      if todo > 0 {
        step := Insert(x);
        var item := RefineItem(x, |s.sems|);
        s' := State(s.queue + [item], s.threads[x := t.(phase := Creating(total, todo - 1), task := Some(item))],
                    s.sems + [0]);
      } else {
        step, s' := Snapshot(x), SetThread(s, x, t.(phase := Draining(total, |s.queue|)));
      }
    case Draining(total, todo) =>
      if t.held.Some? {
        step, s' := PutsDown(s, x);
      } else if todo > 0 {
        step, s' := Take(x), SetThread(s.(queue := s.queue[1..]), x, Taking(t, Some(s.queue[0])));
      } else {
        step, s' := EndDrain(x), SetThread(s, x, t.(phase := Waiting(total, total)));
      }
    case Waiting(total, left) =>
      if left > 0 {
        step := Wait(x);
        s' := SetThread(s.(sems := s.sems[t.task.value.id := s.sems[t.task.value.id] - 1]), x,
                        t.(phase := Waiting(total, left - 1)));
      } else {
        step, s' := Release(x), SetThread(s, x, t.(phase := Normal));
      }
  }

  lemma PutsDown(s: State, x: nat) returns (step: Step, s': State)
    requires Inv(s) && x < |s.threads| && CanFinish(s, x)
    requires s.threads[x].phase.Draining? && s.threads[x].held.Some?
    ensures Goes(s, x, step, s') && !step.Release?
  {
    assert ThreadOk(s, x);
    var t := s.threads[x];
    if t.held.value.RefineItem? {
      step, s' := Compute(x), AfterCompute(s, x, t.held.value);
    } else {
      step, s' := PutBack(x), SetThread(s.(queue := s.queue + [ClusterItem]), x, t.(held := None));
    }
  }

  lemma Prepend(s: State, step: Step, states: seq<State>, steps: seq<Step>, x: nat, tasks: nat)
    requires EndsWithReturn(states, steps, x, tasks) && Next(s, step, states[0])
    ensures EndsWithReturn([s] + states, [step] + steps, x, tasks)
  {
    var all, path := [s] + states, [step] + steps;
    forall k | 0 <= k < |path| ensures Next(all[k], path[k], all[k+1]) {
      assert k > 0 ==> all[k] == states[k-1] && all[k+1] == states[k] && path[k] == steps[k-1];
    }
  }

  lemma {:induction false} Finishes(s: State, x: nat) returns (states: seq<State>, steps: seq<Step>)
    requires Inv(s) && x < |s.threads| && CanFinish(s, x)
    ensures EndsWithReturn(states, steps, x, 1) && states[0] == s
    decreases Distance(s, x)
  {
    var step, s' := GoesOn(s, x);
    if step.Release? {
      states, steps := [s, s'], [step];
    } else {
      StepKeepsInv(s, step, s');
      states, steps := Finishes(s', x);
      Prepend(s, step, states, steps, x, 1);
      states, steps := [s] + states, [step] + steps;
    }
  }

  ghost predicate IsRunOf(threads: nat, states: seq<State>, steps: seq<Step>) {
    IsExecution(states, steps) && |states[0].threads| == threads
  }

  // Some call with that many tasks returns in some run of that many threads.
  ghost predicate SomeReturns(threads: nat, tasks: nat) {
    exists states, steps, x ::
      IsRunOf(threads, states, steps) && EndsWithReturn(states, steps, x, tasks)
  }

  // Thread x is in a call that creates that many tasks.
  predicate IsInCall(s: State, x: nat, tasks: nat) {
    x < |s.threads| && !s.threads[x].phase.Normal? && s.threads[x].phase.total == tasks
  }

  // No call with that many tasks is ever beyond returning.
  ghost predicate AllReturn(threads: nat, tasks: nat) {
    forall states, steps, x ::
      IsRunOf(threads, states, steps) && IsInCall(states[|steps|], x, tasks)
      ==> StillReturns(states[|steps|], x, tasks)
  }

  ghost predicate StillReturns(s: State, x: nat, tasks: nat) {
    exists states, steps :: EndsWithReturn(states, steps, x, tasks) && states[0] == s
  }

  function Start(threads: nat): State {
    State([], seq(threads, w => Thread(Normal, None, None, 0, 0)), [])
  }

  lemma OneTaskReturns(threads: nat)
    requires 0 < threads
    ensures SomeReturns(threads, 1)
  {
    var s := Start(threads);
    InitKeepsInv(s);
    var s' := SetThread(s, 0, s.threads[0].(phase := Creating(1, 1), created := 1));
    StepKeepsInv(s, Begin(0, 1), s');
    var states, steps := Finishes(s', 0);
    Prepend(s, Begin(0, 1), states, steps, 0, 1);
    assert IsRunOf(threads, [s] + states, [Begin(0, 1)] + steps);
  }

  // A thread alone always finishes a call with one task.
  lemma AloneCanFinish(s: State, step: Step, s': State)
    requires Inv(s) && Next(s, step, s') && |s.threads| == 1
    requires IsInCall(s, 0, 1) ==> CanFinish(s, 0)
    ensures IsInCall(s', 0, 1) ==> CanFinish(s', 0)
  {
    assert ThreadOk(s, 0);
  }

  lemma {:induction false} AloneFinishes(states: seq<State>, steps: seq<Step>, k: nat)
    requires IsExecution(states, steps) && |states[0].threads| == 1 && k < |states|
    ensures |states[k].threads| == 1 && (IsInCall(states[k], 0, 1) ==> CanFinish(states[k], 0))
    decreases k
  {
    if k == 0 {
    } else {
      AloneFinishes(states, steps, k - 1);
      ExecutionKeepsInv(states, steps, k - 1);
      AloneCanFinish(states[k-1], steps[k-1], states[k]);
    }
  }

  // Another thread may take the task of thread 0 just before thread 0 does: then
  // the queue is empty, and thread 0 waits for a task that it does not have.

  predicate HasNoTask(s: State, x: nat) {
    x < |s.threads| && s.threads[x].phase == Waiting(1, 1) && s.threads[x].task.None?
  }

  lemma TaskIsTaken(threads: nat) returns (states: seq<State>, steps: seq<Step>)
    requires 2 <= threads
    ensures IsRunOf(threads, states, steps) && HasNoTask(states[|steps|], 0)
  {
    var item := RefineItem(0, 0);
    states, steps := TaskIsInserted(threads);
    var s := states[3];
    var s4 := SetThread(s.(queue := []), 1, Thread(Normal, Some(item), None, 0, 0));
    var s5 := SetThread(s4, 0, Thread(Draining(1, 0), None, None, 1, 0));
    var s6 := SetThread(s5, 0, Thread(Waiting(1, 1), None, None, 1, 0));
    assert s.queue[1..] == [];
    Append(states, steps, Take(1), s4);
    Append(states + [s4], steps + [Take(1)], TakeNothing(0), s5);
    Append(states + [s4] + [s5], steps + [Take(1)] + [TakeNothing(0)], EndDrain(0), s6);
    states, steps := states + [s4] + [s5] + [s6], steps + [Take(1)] + [TakeNothing(0)] + [EndDrain(0)];
  }

  lemma TaskIsInserted(threads: nat) returns (states: seq<State>, steps: seq<Step>)
    requires 2 <= threads
    ensures IsExecution(states, steps) && |steps| == 3 && |states[0].threads| == |states[3].threads| == threads
    ensures states[3].queue == [RefineItem(0, 0)] && states[3].sems == [0]
    ensures states[3].threads[0] == Thread(Draining(1, 1), None, Some(RefineItem(0, 0)), 1, 0)
    ensures states[3].threads[1] == Thread(Normal, None, None, 0, 0)
  {
    var item := RefineItem(0, 0);
    var s0 := Start(threads);
    var s1 := SetThread(s0, 0, Thread(Creating(1, 1), None, None, 1, 0));
    var s2 := State([item], s1.threads[0 := Thread(Creating(1, 0), None, Some(item), 1, 0)], [0]);
    var s3 := SetThread(s2, 0, Thread(Draining(1, 1), None, Some(item), 1, 0));
    Append([s0], [], Begin(0, 1), s1);
    Append([s0] + [s1], [] + [Begin(0, 1)], Insert(0), s2);
    Append([s0] + [s1] + [s2], [] + [Begin(0, 1)] + [Insert(0)], Snapshot(0), s3);
    states, steps := [s0] + [s1] + [s2] + [s3], [] + [Begin(0, 1)] + [Insert(0)] + [Snapshot(0)];
  }

  lemma Append(states: seq<State>, steps: seq<Step>, step: Step, s: State)
    requires IsPath(states, steps) && Next(states[|steps|], step, s)
    ensures IsPath(states + [s], steps + [step])
  {
    var all, path := states + [s], steps + [step];
    forall k | 0 <= k < |path| ensures Next(all[k], path[k], all[k+1]) {
      assert k < |steps| ==> path[k] == steps[k] && all[k+1] == states[k+1];
    }
  }

  lemma {:induction false} NoTaskStays(states: seq<State>, steps: seq<Step>, x: nat, k: nat)
    requires IsPath(states, steps) && k < |states| && HasNoTask(states[0], x)
    ensures HasNoTask(states[k], x)
    decreases k
  {
    if k == 0 {
    } else {
      NoTaskStays(states, steps, x, k - 1);
      assert Next(states[k-1], steps[k-1], states[k]);
    }
  }

  lemma OneTaskMayBeTaken(threads: nat)
    requires 2 <= threads
    ensures !AllReturn(threads, 1)
  {
    var states, steps := TaskIsTaken(threads);
    var s := states[|steps|];
    if StillReturns(s, 0, 1) {
      var more, path :| EndsWithReturn(more, path, 0, 1) && more[0] == s;
      NoTaskStays(more, path, 0, |path| - 1);
    }
    assert IsRunOf(threads, states, steps) && IsInCall(s, 0, 1);
  }

  lemma SeveralTasksAreStuck(threads: nat, tasks: nat)
    requires 0 < threads && 2 <= tasks
    ensures !AllReturn(threads, tasks)
  {
    var s := Start(threads);
    var s' := SetThread(s, 0, s.threads[0].(phase := Creating(tasks, tasks), created := tasks));
    var states, steps := [s, s'], [Begin(0, tasks)];
    assert IsRunOf(threads, states, steps) && IsInCall(states[|steps|], 0, tasks);
    ExecutionKeepsInv(states, steps, 1);
    if StillReturns(s', 0, tasks) {
      var more, path :| EndsWithReturn(more, path, 0, tasks) && more[0] == s';
      SeveralTasksNeverReturn(more, path, 0, tasks);
    }
  }

  lemma NoCallWithoutTasks(threads: nat)
    ensures AllReturn(threads, 0)
  {
    forall states, steps, x | IsRunOf(threads, states, steps) ensures !IsInCall(states[|steps|], x, 0) {
      ExecutionKeepsInv(states, steps, |steps|);
      CallHasTasks(states[|steps|], x);
    }
  }

  lemma CallHasTasks(s: State, x: nat)
    requires Inv(s)
    ensures !IsInCall(s, x, 0)
  {
    if x < |s.threads| {
      assert ThreadOk(s, x);
    }
  }

  lemma AloneAllReturn()
    ensures AllReturn(1, 1)
  {
    forall states, steps, x |
      IsRunOf(1, states, steps) && IsInCall(states[|steps|], x, 1)
      ensures StillReturns(states[|steps|], x, 1)
    {
      AloneFinishes(states, steps, |steps|);
      ExecutionKeepsInv(states, steps, |steps|);
      var more, path := Finishes(states[|steps|], x);
    }
  }

  // The tasks that a refinement of `size` eigenvalues is split into: num_tasks,
  // or none where it is not split.
  function NumTasks(size: nat, own: nat): nat
    requires 0 < own
  {
    if own < size then Iceil(size, own) - 1 else 0
  }

  lemma FewTasks(size: nat, own: nat)
    requires 2 <= own
    ensures NumTasks(size, own) == 0 <==> size <= own
    ensures NumTasks(size, own) <= 1 <==> size <= 2 * own
  {
    if own < size {
      IceilFits(size, own);
      QuotientIsSmall(size / own, size % own, own);
    }
  }

  lemma QuotientIsSmall(d: nat, m: nat, own: nat)
    requires m < own && own < d * own + m
    ensures (if m != 0 then d + 1 else d) <= 2 <==> d * own + m <= 2 * own
  {
    if d >= 3 {
      Scales(d, 3, own);
    }
  }

  // Some call with this size returns in some run if and only if at most twice the
  // own part is to be refined ...
  lemma SomeCallReturnsIff(size: nat, left: nat, nz: nat, threads: nat)
    requires 0 < threads
    ensures var own := OwnPart(left, nz, threads); var tasks := NumTasks(size, own);
            tasks == 0 || SomeReturns(threads, tasks) <==> size <= 2 * own
  {
    var own := OwnPart(left, nz, threads);
    var tasks := NumTasks(size, own);
    FewTasks(size, own);
    OneTaskReturns(threads);
    if SomeReturns(threads, tasks) {
      var states, steps, x :| IsRunOf(threads, states, steps) && EndsWithReturn(states, steps, x, tasks);
      InitKeepsInv(states[0]);
      SeveralTasksNeverReturn(states, steps, x, tasks);
    }
  }

  // ... and every call can still return, whatever the threads have done so far,
  // if and only if the refinement is not split, or there is no other thread and
  // at most twice the own part to be refined.
  lemma AllCallsReturnIff(size: nat, left: nat, nz: nat, threads: nat)
    requires 0 < threads
    ensures var own := OwnPart(left, nz, threads);
            AllReturn(threads, NumTasks(size, own)) <==> size <= own || (threads == 1 && size <= 2 * own)
  {
    var tasks := NumTasks(size, OwnPart(left, nz, threads));
    FewTasks(size, OwnPart(left, nz, threads));
    if tasks == 0 {
      NoCallWithoutTasks(threads);
    } else if tasks >= 2 {
      SeveralTasksAreStuck(threads, tasks);
    } else if threads == 1 {
      AloneAllReturn();
    } else {
      OneTaskMayBeTaken(threads);
    }
  }

  // One process, four threads, eight eigenvalues in one cluster: three tasks.
  lemma EightOnFourThreads()
    ensures NumTasks(8, OwnPart(8, 8, 4)) == 3
    ensures !SomeReturns(4, 3) && !AllReturn(4, 3)
  {
    SomeCallReturnsIff(8, 8, 8, 4);
    AllCallsReturnIff(8, 8, 8, 4);
  }
}
