// Systems of processes that communicate by messages: that each message is received
// for the cluster for which it was sent, and that the processes find the same gaps
// in shared clusters, follow from one another, one depth after the other.
module Systems {
  import opened Tasks
  import opened Subtasks
  import opened Scheduler
  import opened SchedulerSteps
  import opened SchedulerRuns
  import opened Lineage
  import opened Messages
  import opened Peers
  import opened PeerRuns

  // The runs of all processes up to some moment. values[p][j] are the eigenvalues
  // that process p holds after step j of its run, shared(first, last) is what the
  // processes know about a cluster that they share, and isGap is the test applied to
  // two neighbouring values.
  datatype System<!V> = System(runs: seq<Run>, values: seq<seq<seq<V>>>, shared: (nat, nat) -> SharedCluster,
                               isGap: (V, V) -> bool)

  // Where the part of process s in a cluster starts, which is also the tag of its
  // message.
  ghost function Begin(c: SharedCluster, s: int, first: nat, last: nat): nat {
    if IsShared(c) && c.first == first && c.last == last && 0 <= s < |c.runs| && Takes(c, s) then MyBegin(c, s)
    else first
  }

  ghost function BeginOf(shared: (nat, nat) -> SharedCluster, s: int): (nat, nat) -> nat {
    (first, last) => Begin(shared(first, last), s, first, last)
  }

  lemma PartsBeginInside(shared: (nat, nat) -> SharedCluster, s: int)
    ensures BeginsInside(BeginOf(shared, s))
  {
    forall first: nat, last: nat | first <= last ensures first <= BeginOf(shared, s)(first, last) <= last {
      var c := shared(first, last);
      if IsShared(c) && c.first == first && c.last == last && 0 <= s < |c.runs| && Takes(c, s) {
        TakerIsProcess(c, s);
      }
    }
  }

  // Step j posts the x-th message with this tag for process q.
  ghost predicate IsSentAt(r: Run, q: int, begin: (nat, nat) -> nat, tag: nat, x: nat, j: nat)
    requires |r.states| == |r.steps| + 1
  {
    j < |r.steps| && |Posted(r, q, begin, tag, j)| == x && PostedAt(r, q, begin, tag, j) != []
  }

  // Process p posts receptions for a cluster in the same step as its own messages.
  // What it gets for cluster t from process s is the message that s sent at step j:
  // the reception is the x-th with its tag, and so is the message.
  ghost predicate IsDelivered(p: Run, s: Run, begin: (nat, nat) -> nat, t: Task, j: nat)
    requires |p.states| == |p.steps| + 1 && |s.states| == |s.steps| + 1
  {
    var tag := begin(t.first, t.last);
    exists x: nat :: IsReception(p, s, begin, tag, t, x) && IsSentAt(s, p.ctx.pid, begin, tag, x, j)
  }

  ghost predicate IsReception(p: Run, s: Run, begin: (nat, nat) -> nat, tag: nat, t: Task, x: nat)
    requires |p.states| == |p.steps| + 1
  {
    x < |PostedFor(p, s, begin, tag)| && PostedFor(p, s, begin, tag)[x] == KeyOf(t)
  }

  ghost predicate PostsKey(r: Run, j: nat, t: Task)
    requires |r.states| == |r.steps| + 1
  {
    exists u :: Posts(r, j, u) && KeyOf(u) == KeyOf(t)
  }

  ghost predicate AreRuns(runs: seq<Run>) {
    forall p :: 0 <= p < |runs| ==> |runs[p].states| == |runs[p].steps| + 1
  }

  // The value that process p has for index k of cluster t after the exchange comes
  // from step j of process s: its own refinement of t, or a message from s.
  ghost predicate IsSource<V>(sys: System<V>, p: nat, t: Task, k: nat, s: nat, j: nat)
    requires p < |sys.runs| && AreRuns(sys.runs)
  {
    && s < |sys.runs| && Sends(sys.shared(t.first, t.last), s, k)
    && if s == p then PostsKey(sys.runs[p], j, t)
       else IsDelivered(sys.runs[p], sys.runs[s], BeginOf(sys.shared, s), t, j)
  }

  ghost predicate IsValue<V(!new)>(sys: System<V>, p: nat, t: Task, k: nat, v: V)
    requires p < |sys.runs| && AreRuns(sys.runs)
  {
    exists s, j :: IsSource(sys, p, t, k, s, j) && IsHeld(sys.values, s, j, k, v)
  }

  ghost predicate IsHeld<V>(values: seq<seq<seq<V>>>, s: nat, j: nat, k: nat, v: V) {
    s < |values| && j < |values[s]| && k < |values[s][j]| && v == values[s][j][k]
  }

  // The gaps inside a shared cluster come from the values after the exchange.
  ghost predicate IsFromValues<V(!new)>(sys: System<V>, p: nat, gap: seq<bool>, t: Task)
    requires p < |sys.runs| && AreRuns(sys.runs)
  {
    && IsShared(sys.shared(t.first, t.last)) && IsView(sys.runs[p].ctx, t, sys.shared(t.first, t.last))
    && |gap| == |sys.runs[p].ctx.iproc|
    && exists v: seq<V> :: AreValues(sys, p, gap, t, v)
  }

  ghost predicate AreValues<V(!new)>(sys: System<V>, p: nat, gap: seq<bool>, t: Task, v: seq<V>)
    requires p < |sys.runs| && AreRuns(sys.runs)
  {
    && |v| == |gap| && t.last < |gap|
    && (forall k: nat :: t.first <= k <= t.last ==> IsValue(sys, p, t, k, v[k]))
    && (forall k: nat :: t.first <= k < t.last ==> gap[k] == sys.isGap(v[k], v[k+1]))
  }

  ghost predicate IsSystem<V(!new)>(sys: System<V>, input: Input) {
    && AreRuns(sys.runs)
    && (forall p :: 0 <= p < |sys.runs| ==> sys.runs[p].ctx.pid == p && PeerRuns.IsRun(sys.runs[p], input))
    && (forall p, q :: 0 <= p < q < |sys.runs| ==> AreAlike(sys.runs[p].ctx, sys.runs[q].ctx))
    && (forall p: nat, i: nat, t :: p < |sys.runs| && Splits(sys.runs[p], i, t) && Shared(t) ==>
          IsFromValues(sys, p, sys.runs[p].steps[i].gap, t))
  }

  predicate AreAlike(ctxP: Context, ctxQ: Context) {
    ctxP.iproc == ctxQ.iproc && ctxP.n == ctxQ.n
  }

  // All processes agree on the gaps of clusters less than d deep.
  ghost predicate AllPeers(runs: seq<Run>, input: Input, d: nat) {
    forall p, q :: 0 <= p < |runs| && 0 <= q < |runs| && p != q ==> ArePeers(runs[p], runs[q], input, d)
  }

  // A process posts a cluster only once.
  lemma PostsOnce(r: Run, input: Input, j: nat, k: nat, t: Task, u: Task)
    requires PeerRuns.IsRun(r, input) && Posts(r, j, t) && Posts(r, k, u) && KeyOf(t) == KeyOf(u)
    ensures j == k
  {
    PostIsIn(r, input, j, t);
    if j < k {
      RenewalsDescend(r.ctx, r.states, r.steps, j, k, t, u, t.first);
    } else if k < j {
      RenewalsDescend(r.ctx, r.states, r.steps, k, j, u, t, t.first);
    }
  }

  lemma {:induction false} PostedIsPrefix(r: Run, q: int, begin: (nat, nat) -> nat, tag: nat, k: nat, n: nat)
    requires |r.states| == |r.steps| + 1 && k <= n <= |r.steps|
    ensures Posted(r, q, begin, tag, k) <= Posted(r, q, begin, tag, n)
    decreases n
  {
    if k == n {
    } else {
      PostedIsPrefix(r, q, begin, tag, k, n - 1);
    }
  }

  lemma SentIsPosted(r: Run, q: Run, begin: (nat, nat) -> nat, tag: nat, x: nat, j: nat) returns (u: Task)
    requires |r.states| == |r.steps| + 1 && IsSentAt(r, q.ctx.pid, begin, tag, x, j)
    ensures Posts(r, j, u) && x < |PostedFor(r, q, begin, tag)| && PostedFor(r, q, begin, tag)[x] == KeyOf(u)
  {
    u := r.states[j].workers[r.steps[j].w].act.cl;
    PostedIsPrefix(r, q.ctx.pid, begin, tag, j + 1, |r.steps|);
  }

  // A message that a process receives for a cluster was sent for that cluster.
  lemma SourceIsPost<V(!new)>(sys: System<V>, input: Input, d: nat, p: nat, t: Task, k: nat, s: nat, j: nat)
    requires IsSystem(sys, input) && AllPeers(sys.runs, input, d) && p < |sys.runs| && t.depth <= d
    requires IsSource(sys, p, t, k, s, j)
    ensures PostsKey(sys.runs[s], j, t)
  {
    if s != p {
      DeliveredIsPosted(sys.runs[p], sys.runs[s], input, d, sys.shared, s, t, j);
    }
  }

  lemma DeliveredIsPosted(p: Run, q: Run, input: Input, d: nat, shared: (nat, nat) -> SharedCluster, s: nat, t: Task,
                          j: nat)
    requires ArePeers(p, q, input, d) && t.depth <= d && IsDelivered(p, q, BeginOf(shared, s), t, j)
    ensures PostsKey(q, j, t)
  {
    var begin := BeginOf(shared, s);
    var tag := begin(t.first, t.last);
    var x: nat :| IsReception(p, q, begin, tag, t, x) && IsSentAt(q, p.ctx.pid, begin, tag, x, j);
    var u := SentIsPosted(q, p, begin, tag, x, j);
    PartsBeginInside(shared, s);
    MessagesMatch(p, q, input, d, begin, tag, x);
  }

  lemma PostsKeyOnce(r: Run, input: Input, i: nat, j: nat, t: Task, u: Task)
    requires PeerRuns.IsRun(r, input) && PostsKey(r, i, t) && PostsKey(r, j, u) && KeyOf(t) == KeyOf(u)
    ensures i == j
  {
    var a :| Posts(r, i, a) && KeyOf(a) == KeyOf(t);
    var b :| Posts(r, j, b) && KeyOf(b) == KeyOf(u);
    PostsOnce(r, input, i, j, a, b);
  }

  lemma SourcesAgree<V(!new)>(sys: System<V>, input: Input, d: nat, p: nat, q: nat, t: Task, u: Task, k: nat,
                              s: nat, i: nat, s': nat, j: nat)
    requires IsSystem(sys, input) && AllPeers(sys.runs, input, d) && p < |sys.runs| && q < |sys.runs|
    requires SameCluster(t, u) && t.depth <= d && IsShared(sys.shared(t.first, t.last))
    requires IsSource(sys, p, t, k, s, i) && IsSource(sys, q, u, k, s', j)
    ensures s == s' && i == j
  {
    NoIndexIsSentTwice(sys.shared(t.first, t.last), k, s, s');
    SourceIsPost(sys, input, d, p, t, k, s, i);
    SourceIsPost(sys, input, d, q, u, k, s, j);
    PostsKeyOnce(sys.runs[s], input, i, j, t, u);
  }

  // Two processes that split the same cluster hold the same values for it.
  lemma ValuesAgree<V(!new)>(sys: System<V>, input: Input, d: nat, p: nat, q: nat, t: Task, u: Task, k: nat, v: V, w: V)
    requires IsSystem(sys, input) && AllPeers(sys.runs, input, d) && p < |sys.runs| && q < |sys.runs|
    requires SameCluster(t, u) && t.depth <= d && IsShared(sys.shared(t.first, t.last))
    requires IsValue(sys, p, t, k, v) && IsValue(sys, q, u, k, w)
    ensures v == w
  {
    var s, i :| IsSource(sys, p, t, k, s, i) && IsHeld(sys.values, s, i, k, v);
    var s', j :| IsSource(sys, q, u, k, s', j) && IsHeld(sys.values, s', j, k, w);
    SourcesAgree(sys, input, d, p, q, t, u, k, s, i, s', j);
  }

  lemma GapsAgree<V(!new)>(sys: System<V>, input: Input, d: nat, p: nat, q: nat, gapP: seq<bool>, gapQ: seq<bool>,
                           t: Task, u: Task)
    requires IsSystem(sys, input) && AllPeers(sys.runs, input, d) && p < |sys.runs| && q < |sys.runs|
    requires SameCluster(t, u) && t.depth <= d
    requires IsFromValues(sys, p, gapP, t) && IsFromValues(sys, q, gapQ, u)
    ensures AgreeOn(gapP, gapQ, t)
  {
    var v :| AreValues(sys, p, gapP, t, v);
    var w :| AreValues(sys, q, gapQ, u, w);
    forall k: nat | t.first <= k <= t.last ensures v[k] == w[k] {
      ValuesAgree(sys, input, d, p, q, t, u, k, v[k], w[k]);
    }
    SameValuesSameGaps(gapP, gapQ, v, w, sys.isGap, t);
  }

  lemma SameValuesSameGaps<V>(gapP: seq<bool>, gapQ: seq<bool>, v: seq<V>, w: seq<V>, isGap: (V, V) -> bool, t: Task)
    requires |gapP| == |gapQ| == |v| == |w| && t.last < |gapP|
    requires forall k: nat :: t.first <= k <= t.last ==> v[k] == w[k]
    requires forall k: nat :: t.first <= k < t.last ==> gapP[k] == isGap(v[k], v[k+1])
    requires forall k: nat :: t.first <= k < t.last ==> gapQ[k] == isGap(w[k], w[k+1])
    ensures AgreeOn(gapP, gapQ, t)
  {
    forall k: nat | t.first <= k < t.last ensures gapP[k] == gapQ[k] {
      assert v[k] == w[k] && v[k+1] == w[k+1];
    }
  }

  lemma PairAgrees<V(!new)>(sys: System<V>, input: Input, d: nat, p: nat, q: nat)
    requires IsSystem(sys, input) && AllPeers(sys.runs, input, d) && p < |sys.runs| && q < |sys.runs| && p != q
    ensures ArePeers(sys.runs[p], sys.runs[q], input, d + 1)
  {
    var rp, rq := sys.runs[p], sys.runs[q];
    assert ArePeers(rp, rq, input, d);
    forall i: nat, j: nat, t, u | Splits(rp, i, t) && Splits(rq, j, u) && SameCluster(t, u) && t.depth < d + 1
      ensures AgreeOn(rp.steps[i].gap, rq.steps[j].gap, t)
    {
      SplitIsIn(rp, input, i, t);
      SplitIsIn(rq, input, j, u);
      SameIsShared(rp.ctx, rq.ctx, t, u);
      GapsAgree(sys, input, d, p, q, rp.steps[i].gap, rq.steps[j].gap, t, u);
    }
  }

  lemma SameIsShared(ctxP: Context, ctxQ: Context, t: Task, u: Task)
    requires IsCluster(ctxP, t) && IsCluster(ctxQ, u) && SameCluster(t, u)
    requires ctxP.iproc == ctxQ.iproc && ctxP.pid != ctxQ.pid
    ensures Shared(t) && Shared(u)
  {
  }

  // Processes whose gaps come from the messages they receive agree on the gaps of
  // every shared cluster: while they agree on less deep ones, messages are received
  // for the clusters for which they were sent.
  lemma {:induction false} SystemAgrees<V(!new)>(sys: System<V>, input: Input, d: nat)
    requires IsSystem(sys, input)
    ensures AllPeers(sys.runs, input, d)
  {
    if d == 0 {
      forall p, q | 0 <= p < |sys.runs| && 0 <= q < |sys.runs| && p != q
        ensures ArePeers(sys.runs[p], sys.runs[q], input, 0)
      {
        assert p < q ==> AreAlike(sys.runs[p].ctx, sys.runs[q].ctx);
        assert q < p ==> AreAlike(sys.runs[q].ctx, sys.runs[p].ctx);
      }
    } else {
      SystemAgrees(sys, input, d - 1);
      forall p, q | 0 <= p < |sys.runs| && 0 <= q < |sys.runs| && p != q
        ensures ArePeers(sys.runs[p], sys.runs[q], input, d)
      {
        PairAgrees(sys, input, d - 1, p, q);
      }
    }
  }

  lemma TwoArePeers<V(!new)>(sys: System<V>, input: Input, d: nat, p: nat, q: nat)
    requires IsSystem(sys, input) && p < |sys.runs| && q < |sys.runs| && p != q
    ensures ArePeers(sys.runs[p], sys.runs[q], input, d)
  {
    SystemAgrees(sys, input, d);
  }

  // What follows for runs of a system.

  // What process p takes for the value of index k of cluster t was sent, or computed
  // by p itself, when the process that refines k posted this very cluster.
  lemma MessagesReachTheirCluster<V(!new)>(sys: System<V>, input: Input, p: nat, t: Task, k: nat, s: nat, j: nat)
    requires IsSystem(sys, input) && p < |sys.runs| && IsSource(sys, p, t, k, s, j)
    ensures PostsKey(sys.runs[s], j, t)
    ensures forall i: nat :: PostsKey(sys.runs[s], i, t) ==> i == j
  {
    SystemAgrees(sys, input, t.depth);
    SourceIsPost(sys, input, t.depth, p, t, k, s, j);
    forall i: nat | PostsKey(sys.runs[s], i, t) ensures i == j {
      PostsKeyOnce(sys.runs[s], input, i, j, t, t);
    }
  }

  // At any time the x-th messages of two processes with the same tag are for the
  // same cluster.
  lemma MessagesMatchInOrder<V(!new)>(sys: System<V>, input: Input, p: nat, q: nat, s: nat, tag: nat, x: nat)
    requires IsSystem(sys, input) && p < |sys.runs| && q < |sys.runs| && p != q
    requires x < |PostedFor(sys.runs[p], sys.runs[q], BeginOf(sys.shared, s), tag)|
    requires x < |PostedFor(sys.runs[q], sys.runs[p], BeginOf(sys.shared, s), tag)|
    ensures PostedFor(sys.runs[p], sys.runs[q], BeginOf(sys.shared, s), tag)[x]
         == PostedFor(sys.runs[q], sys.runs[p], BeginOf(sys.shared, s), tag)[x]
  {
    var d := PostedFor(sys.runs[p], sys.runs[q], BeginOf(sys.shared, s), tag)[x].depth;
    TwoArePeers(sys, input, d, p, q);
    PartsBeginInside(sys.shared, s);
    MessagesMatch(sys.runs[p], sys.runs[q], input, d, BeginOf(sys.shared, s), tag, x);
  }

  // If p ever has a shared cluster t and q owns an index of t, then q has refined t,
  // and posted its messages, by the time its counter is zero: no process waits for a
  // message that nobody sends.
  lemma NobodyWaitsInVain<V(!new)>(sys: System<V>, input: Input, p: nat, q: nat, k: nat, t: Task)
    returns (j: nat, u: Task)
    requires IsSystem(sys, input) && p < |sys.runs| && q < |sys.runs| && p != q
    requires k < |sys.runs[p].states| && Has(sys.runs[p].states[k], t)
    requires TakesPart(sys.runs[q], t) && Last(sys.runs[q]).numLeft <= 0
    ensures SameCluster(t, u) && Posts(sys.runs[q], j, u)
  {
    TwoArePeers(sys, input, t.depth, p, q);
    j, u := FinishedHasPosted(sys.runs[p], sys.runs[q], input, t.depth, k, t);
  }

  // In the end two processes have posted the same messages to each other.
  lemma FinishedPostSame<V(!new)>(sys: System<V>, input: Input, p: nat, q: nat, s: nat, tag: nat)
    requires IsSystem(sys, input) && p < |sys.runs| && q < |sys.runs| && p != q
    requires Last(sys.runs[p]).numLeft <= 0 && Last(sys.runs[q]).numLeft <= 0
    ensures PostedFor(sys.runs[p], sys.runs[q], BeginOf(sys.shared, s), tag)
         == PostedFor(sys.runs[q], sys.runs[p], BeginOf(sys.shared, s), tag)
  {
    var a := PostedFor(sys.runs[p], sys.runs[q], BeginOf(sys.shared, s), tag);
    var b := PostedFor(sys.runs[q], sys.runs[p], BeginOf(sys.shared, s), tag);
    NoneIsMissing(sys, input, p, q, s, tag);
    NoneIsMissing(sys, input, q, p, s, tag);
    forall x: nat | x < |a| ensures a[x] == b[x] {
      MessagesMatchInOrder(sys, input, p, q, s, tag, x);
    }
  }

  lemma NoneIsMissing<V(!new)>(sys: System<V>, input: Input, p: nat, q: nat, s: nat, tag: nat)
    requires IsSystem(sys, input) && p < |sys.runs| && q < |sys.runs| && p != q
    requires Last(sys.runs[q]).numLeft <= 0
    ensures |PostedFor(sys.runs[p], sys.runs[q], BeginOf(sys.shared, s), tag)|
         <= |PostedFor(sys.runs[q], sys.runs[p], BeginOf(sys.shared, s), tag)|
  {
    var begin := BeginOf(sys.shared, s);
    var a, b := PostedFor(sys.runs[p], sys.runs[q], begin, tag), PostedFor(sys.runs[q], sys.runs[p], begin, tag);
    if |b| < |a| {
      NextIsPosted(sys, input, p, q, begin, tag, |b|);
      PartsBeginInside(sys.shared, s);
      PostedDescends(sys.runs[p], input, sys.runs[q].ctx.pid, begin, tag);
      var z :| 0 <= z < |b| && b[z] == a[|b|];
      MessagesMatchInOrder(sys, input, p, q, s, tag, z);
    }
  }

  lemma NextIsPosted<V(!new)>(sys: System<V>, input: Input, p: nat, q: nat, begin: (nat, nat) -> nat, tag: nat, x: nat)
    requires IsSystem(sys, input) && p < |sys.runs| && q < |sys.runs| && p != q
    requires Last(sys.runs[q]).numLeft <= 0 && x < |PostedFor(sys.runs[p], sys.runs[q], begin, tag)|
    ensures PostedFor(sys.runs[p], sys.runs[q], begin, tag)[x] in PostedFor(sys.runs[q], sys.runs[p], begin, tag)
  {
    var k, t := PostOf(sys.runs[p], sys.runs[q], input, begin, tag, x);
    TwoArePeers(sys, input, t.depth, p, q);
    var j, u := NobodyWaitsInVain(sys, input, p, q, k, t);
    SameIsFor(sys.runs[q], sys.runs[p], begin, tag, j, t, u);
  }

  // Nothing is left to a process but clusters whose messages it is waiting for.
  ghost predicate OnlyWaits(r: Run)
    requires r.states != []
  {
    forall t :: Has(Last(r), t) ==> t.parent == Renewed
  }

  // Every process involved in t has posted its messages for t.
  ghost predicate AllPosted(runs: seq<Run>, t: Task)
    requires AreRuns(runs)
  {
    forall q :: 0 <= q < |runs| && TakesPart(runs[q], t) ==> HasPosted(runs[q], t)
  }

  ghost predicate HasPosted(r: Run, t: Task)
    requires |r.states| == |r.steps| + 1
  {
    exists j: nat, u :: Posts(r, j, u) && SameCluster(t, u)
  }

  // If all processes do nothing but wait, and some process waits, then for some
  // cluster that a process waits for, all messages have been posted: the processes
  // cannot wait for one another in a circle.
  lemma NoDeadlock<V(!new)>(sys: System<V>, input: Input, p: nat, t: Task) returns (p': nat, t': Task)
    requires IsSystem(sys, input) && p < |sys.runs| && Has(Last(sys.runs[p]), t)
    requires forall q :: 0 <= q < |sys.runs| ==> OnlyWaits(sys.runs[q])
    ensures p' < |sys.runs| && Has(Last(sys.runs[p']), t') && AllPosted(sys.runs, t')
    decreases t.depth
  {
    if q, u :| 0 <= q < |sys.runs| && Has(Last(sys.runs[q]), u) && u.depth < t.depth {
      p', t' := NoDeadlock(sys, input, q, u);
    } else {
      p', t' := p, t;
      forall q | 0 <= q < |sys.runs| && TakesPart(sys.runs[q], t) ensures HasPosted(sys.runs[q], t) {
        if p == q {
          var i, v := RenewedIsPosted(sys.runs[p], input, |sys.runs[p].steps|, t);
        } else {
          TwoArePeers(sys, input, t.depth, p, q);
          ShallowestIsPosted(sys.runs[p], sys.runs[q], input, t);
        }
      }
    }
  }

  lemma ShallowestIsPosted(p: Run, q: Run, input: Input, t: Task)
    requires ArePeers(p, q, input, t.depth) && Has(Last(p), t) && OnlyWaits(q) && TakesPart(q, t)
    requires forall u :: Has(Last(q), u) ==> t.depth <= u.depth
    ensures HasPosted(q, t)
  {
    var split, j, u := PeerHasSame(p, q, input, t.depth, |p.steps|, t);
    var i, v;
    if split {
      i, v := SplitIsPosted(q, input, j, u);
    } else {
      i, v := RenewedIsPosted(q, input, |q.steps|, u);
    }
    assert SameCluster(t, v);
  }
}
