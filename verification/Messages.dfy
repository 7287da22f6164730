// The exchange of refined eigenvalues between the processes that share a
// cluster: communicate_refined_eigvals of process_c_task.c.
module Messages {
  import opened Integers
  import opened Subtasks
  import opened Tasks

  // The cluster [first, last] of a block as every process involved in it sees
  // it, and for each process the run of indices it found in the block.
  datatype SharedCluster = SharedCluster(iproc: seq<int>, block: Interval, first: nat, last: nat,
                                         leftPid: int, rightPid: int, runs: seq<Interval>)

  ghost predicate IsShared(c: SharedCluster) {
    && c.block.first <= c.first < c.last <= c.block.last < |c.iproc|
    && Ascending(c.iproc, c.block)
    && (forall i :: c.block.first <= i <= c.block.last ==> -1 <= c.iproc[i] < |c.runs|)
    && IsSpan(c.iproc, c.first, c.last, c.leftPid, c.rightPid)
    && forall p :: 0 <= p < |c.runs| && Takes(c, p) ==> IsRun(c.iproc, p, c.block, c.runs[p])
  }

  // Process p takes part in the exchange.
  ghost predicate Takes(c: SharedCluster, p: int) {
    c.last < |c.iproc| && Involved(c.iproc, p, c.first, c.last)
  }

  // my_begin and my_end of process p.
  function MyBegin(c: SharedCluster, p: int): int
    requires 0 <= p < |c.runs|
  {
    if p == c.leftPid then c.first else Max(c.first, c.runs[p].first)
  }

  function MyEnd(c: SharedCluster, p: int): int
    requires 0 <= p < |c.runs|
  {
    if p == c.rightPid then c.last else Min(c.last, c.runs[p].last)
  }

  // Index k lies in the part that process p refines and sends.
  ghost predicate Sends(c: SharedCluster, p: int, k: int) {
    0 <= p < |c.runs| && Takes(c, p) && MyBegin(c, p) <= k <= MyEnd(c, p)
  }

  lemma TakerIsProcess(c: SharedCluster, p: int)
    requires IsShared(c) && Takes(c, p) && 0 <= p
    ensures p < |c.runs| && IsRun(c.iproc, p, c.block, c.runs[p])
    ensures c.leftPid <= p <= c.rightPid
    ensures c.first <= MyBegin(c, p) <= MyEnd(c, p) <= c.last
    ensures c.runs[p].first <= c.last && c.first <= c.runs[p].last
  {
  }

  // c is what the cluster task cl of process ctx.pid stands for.
  ghost predicate IsView(ctx: Context, cl: Task, c: SharedCluster) {
    && cl.Cluster?
    && c.iproc == ctx.iproc && c.block == cl.block && c.first == cl.first && c.last == cl.last
    && c.leftPid == cl.leftPid && c.rightPid == cl.rightPid
    && 0 <= ctx.pid < |c.runs| && c.runs[ctx.pid] == cl.run
  }

  // The bounds that PMR_process_c_task hands to refine_eigvals.
  method RefineBounds(ctx: Context, cl: Task, ghost c: SharedCluster) returns (rfBegin: nat, rfEnd: nat)
    requires IsCluster(ctx, cl) && IsView(ctx, cl, c)
    ensures rfBegin == MyBegin(c, ctx.pid) && rfEnd == MyEnd(c, ctx.pid)
  {
    rfBegin, rfEnd := 0, 0;
    if cl.leftPid != cl.rightPid {
      rfBegin := Max(cl.first, cl.run.first);
      rfEnd := Min(cl.last, cl.run.last);
    }
    if ctx.pid == cl.leftPid {
      rfBegin := cl.first;
    }
    if ctx.pid == cl.rightPid {
      rfEnd := cl.last;
    }
  }

  // What a process computes about another process p from iproc alone: where the
  // message of p starts (which is also its tag) and how long it is. It is
  // exactly the part that p refines and sends.
  method OtherRange(c: SharedCluster, p: int) returns (otherBegin: nat, otherSize: nat)
    requires IsShared(c) && 0 <= p < |c.runs| && Takes(c, p)
    ensures otherBegin == MyBegin(c, p)
    ensures otherSize == MyEnd(c, p) - MyBegin(c, p) + 1
  {
    TakerIsProcess(c, p);
    var run := c.runs[p];
    var first, size := RunInside(c.iproc, p, c.block, run, c.first, c.last);
    otherBegin, otherSize := first, size;
    if p == c.leftPid {
      otherBegin := c.first;
      var u := c.first;
      while c.iproc[u] == -1
        invariant c.first <= u <= first
        invariant otherSize == size + (u - c.first)
        invariant forall k :: c.first <= k < u ==> c.iproc[k] == -1
        decreases first - u
      {
        otherSize := otherSize + 1;
        u := u + 1;
      }
      assert Between(u, u, first);
    }
    if p == c.rightPid {
      ghost var before := otherSize;
      var u := c.last;
      while c.iproc[u] == -1
        invariant first + size - 1 <= u <= c.last
        invariant otherSize == before + (c.last - u)
        invariant forall k :: u < k <= c.last ==> c.iproc[k] == -1
        decreases u
      {
        otherSize := otherSize + 1;
        u := u - 1;
      }
      assert Between(first + size - 1, u, u);
    }
  }

  // The scan for the first run of p inside a cluster.
  method RunInside(iproc: seq<int>, p: int, ghost block: Interval, ghost run: Interval, clBegin: nat, clEnd: nat)
    returns (otherBegin: nat, otherSize: nat)
    requires 0 <= p && IsRun(iproc, p, block, run)
    requires block.first <= clBegin <= clEnd <= block.last
    requires run.first <= clEnd && clBegin <= run.last
    ensures otherBegin == Max(clBegin, run.first)
    ensures otherBegin + otherSize - 1 == Min(clEnd, run.last)
  {
    otherBegin, otherSize := 0, 0;
    for k := clBegin to clEnd + 1
      invariant otherSize == 0 ==> k <= Max(clBegin, run.first)
      invariant otherSize > 0 ==>
          otherBegin == Max(clBegin, run.first) && otherBegin + otherSize - 1 == Min(clEnd, run.last)
    {
      if otherSize == 0 && iproc[k] == p {
        otherBegin, otherSize := k, 1;
        var u := k + 1;
        while u <= clEnd && iproc[u] == p
          invariant k < u <= clEnd + 1 && u <= run.last + 1 && otherSize == u - otherBegin
        {
          otherSize, u := otherSize + 1, u + 1;
        }
      }
    }
  }

  // The parts of the processes involved tile the cluster.

  lemma EveryIndexIsSent(c: SharedCluster, k: int) returns (p: int)
    requires IsShared(c) && c.first <= k <= c.last
    ensures Sends(c, p, k)
    ensures if c.iproc[k] >= 0 then p == c.iproc[k] else p == c.leftPid || p == c.rightPid
  {
    if c.iproc[k] >= 0 {
      p := c.iproc[k];
      assert Takes(c, p);
    } else {
      var a :| c.first <= a <= c.last && c.iproc[a] == c.leftPid;
      var b :| c.first <= b <= c.last && c.iproc[b] == c.rightPid;
      assert Between(a, k, b) || Between(b, k, a) || (k < a && k < b) || (a < k && b < k);
      p := if k < a then c.leftPid else c.rightPid;
      assert Takes(c, p);
      TakerIsProcess(c, p);
    }
  }

  lemma NoIndexIsSentTwice(c: SharedCluster, k: int, p: int, q: int)
    requires IsShared(c)
    requires Sends(c, p, k) && Sends(c, q, k)
    ensures p == q
  {
    if p < q {
      SentInOrder(c, p, q);
    } else if q < p {
      SentInOrder(c, q, p);
    }
  }

  lemma SentInOrder(c: SharedCluster, p: int, q: int)
    requires IsShared(c) && 0 <= p < q < |c.runs| && Takes(c, p) && Takes(c, q)
    ensures MyEnd(c, p) < MyBegin(c, q)
  {
    TakerIsProcess(c, p);
    TakerIsProcess(c, q);
    var a, b := Min(c.last, c.runs[p].last), Max(c.first, c.runs[q].first);
    assert c.iproc[a] == p && c.iproc[b] == q;
    assert Between(b, b, a) || a < b;
  }

  // Messages and their delivery.

  datatype Message<V> = Message(tag: int, data: seq<V>)

  // What process p sends to every other process, from its array w.
  function Sent<V>(c: SharedCluster, p: int, w: seq<V>): Message<V>
    requires 0 <= p < |c.runs| && 0 <= MyBegin(c, p) <= MyEnd(c, p) < |w|
  {
    Message(MyBegin(c, p), w[MyBegin(c, p)..MyEnd(c, p)+1])
  }

  // The value of index k after the exchange: the one refined by the process that sends k.
  ghost predicate IsExchanged<V>(c: SharedCluster, w: seq<seq<V>>, k: int, v: V)
    requires |w| == |c.runs| && c.first <= k <= c.last
    requires forall p :: 0 <= p < |w| ==> |w[p]| == |c.iproc|
  {
    c.last < |c.iproc| && exists p :: Sends(c, p, k) && v == w[p][k]
  }

  // Process me receives one message from every other process involved; w holds
  // the arrays of all processes after each has refined its own part.
  method Receive<V>(c: SharedCluster, me: nat, w: seq<seq<V>>, mine: array<V>)
    requires IsShared(c) && me < |c.runs| && Takes(c, me)
    requires |w| == |c.runs| && (forall p :: 0 <= p < |w| ==> |w[p]| == |c.iproc|)
    requires mine.Length == |c.iproc| && mine[..] == w[me]
    modifies mine
    ensures forall k :: c.first <= k <= c.last ==> IsExchanged(c, w, k, mine[k])
    ensures forall k :: 0 <= k < mine.Length && !(c.first <= k <= c.last) ==> mine[k] == old(mine[k])
  {
    TakerIsProcess(c, me);
    OthersUntouched(c, me);
    var p := c.leftPid;
    while p <= c.rightPid
      invariant c.leftPid <= p <= c.rightPid + 1
      invariant forall k :: 0 <= k < mine.Length && !(c.first <= k <= c.last) ==> mine[k] == old(mine[k])
      invariant forall q, k :: Sends(c, q, k) && (q < p || q == me) ==> 0 <= k < mine.Length && mine[k] == w[q][k]
    {
      var procInvolved := IsInvolved(c.iproc, p, c.first, c.last);
      if p != me && procInvolved {
        ReceiveFrom(c, p, w[p], mine);
        OthersUntouched(c, p);
      }
      p := p + 1;
    }
    forall k | c.first <= k <= c.last ensures IsExchanged(c, w, k, mine[k]) {
      var q := EveryIndexIsSent(c, k);
      TakerIsProcess(c, q);
    }
  }

  // The message of process p, with the begin, size and tag computed from iproc.
  method ReceiveFrom<V>(c: SharedCluster, p: int, w: seq<V>, mine: array<V>)
    requires IsShared(c) && 0 <= p < |c.runs| && Takes(c, p) && |w| == mine.Length == |c.iproc|
    modifies mine
    ensures forall k :: 0 <= k < mine.Length ==> mine[k] == if Sends(c, p, k) then w[k] else old(mine[k])
  {
    TakerIsProcess(c, p);
    var begin, size := OtherRange(c, p);
    var message := Sent(c, p, w);
    assert message.tag == begin && |message.data| == size;
    Deliver(message.data, begin, mine);
  }

  lemma OthersUntouched(c: SharedCluster, p: int)
    requires IsShared(c)
    ensures forall q, k :: Sends(c, q, k) ==> c.first <= k <= c.last && (q != p ==> !Sends(c, p, k))
  {
    forall q, k | Sends(c, q, k) ensures c.first <= k <= c.last && (q != p ==> !Sends(c, p, k)) {
      TakerIsProcess(c, q);
      if Sends(c, p, k) {
        NoIndexIsSentTwice(c, k, p, q);
      }
    }
  }

  method Deliver<V>(data: seq<V>, begin: nat, mine: array<V>)
    requires begin + |data| <= mine.Length
    modifies mine
    ensures forall k :: 0 <= k < mine.Length ==>
              mine[k] == if begin <= k < begin + |data| then data[k - begin] else old(mine[k])
  {
    for i := 0 to |data|
      invariant forall k :: 0 <= k < mine.Length ==>
                  mine[k] == if begin <= k < begin + i then data[k - begin] else old(mine[k])
    {
      mine[begin + i] := data[i];
    }
  }

  // After the exchange all processes involved hold the same values.
  lemma ReplicasAgree<V>(c: SharedCluster, w: seq<seq<V>>, k: int, v1: V, v2: V)
    requires IsShared(c) && |w| == |c.runs| && c.first <= k <= c.last
    requires forall p :: 0 <= p < |w| ==> |w[p]| == |c.iproc|
    requires IsExchanged(c, w, k, v1) && IsExchanged(c, w, k, v2)
    ensures v1 == v2
  {
    var p :| Sends(c, p, k) && v1 == w[p][k];
    var q :| Sends(c, q, k) && v2 == w[q][k];
    NoIndexIsSentTwice(c, k, p, q);
  }

  // Tags of messages for disjoint clusters differ, so two exchanges that are
  // under way at the same time cannot be confused.
  lemma TagsAreApart(c: SharedCluster, d: SharedCluster, p: int)
    requires IsShared(c) && IsShared(d) && 0 <= p && Takes(c, p) && Takes(d, p)
    requires c.last < d.first || d.last < c.first
    ensures p < |c.runs| && p < |d.runs| && MyBegin(c, p) != MyBegin(d, p)
  {
    TakerIsProcess(c, p);
    TakerIsProcess(d, p);
  }

  // Clusters of which one contains the other may share all their tags: with owners
  // 0, 1, 1, 1 the messages for the whole and for its first two indices start at
  // index 0 from process 0 and at index 1 from process 1. Then their order decides.
  lemma NestedTagsExample(c: SharedCluster, d: SharedCluster)
    requires c.iproc == d.iproc == [0, 1, 1, 1] && c.block == d.block == Interval(0, 3)
    requires c.runs == d.runs == [Interval(0, 0), Interval(1, 3)]
    requires c.leftPid == d.leftPid == 0 && c.rightPid == d.rightPid == 1
    requires c.first == d.first == 0 && c.last == 3 && d.last == 1
    ensures IsShared(c) && IsShared(d)
    ensures MyBegin(c, 0) == MyBegin(d, 0) && MyBegin(c, 1) == MyBegin(d, 1)
  {
    assert c.iproc[0] == 0 && c.iproc[1] == 1 && d.iproc[0] == 0 && d.iproc[1] == 1;
  }
}
