// Refining the eigenvalues of a cluster in parallel: how refine_eigvals of
// process_c_task.c splits the work.
module Refinement {
  import opened Integers

  datatype RefineTask = RefineTask(begin: int, end: int, p: int, q: int)

  // Ceiling division, the iceil of global.h.
  function Iceil(a: nat, b: nat): nat
    requires 0 < b
  {
    if a % b != 0 then a / b + 1 else a / b
  }

  function OwnPart(left: nat, nz: nat, nthreads: nat): (o: nat)
    requires 0 < nthreads
    ensures 2 <= o
  {
    Max(Iceil(left, nthreads), Max(2, nz / (4 * nthreads)))
  }

  // o is enough: at that many each, the threads get through all eigenvalues that are
  // left, and 4 * nthreads times as many as o + 1 are more than nz.
  predicate Suffices(left: nat, nz: nat, nthreads: nat, o: nat) {
    left <= o * nthreads && nz < (o + 1) * (4 * nthreads)
  }

  // The own part is the least number from two on that is enough.
  lemma OwnPartIsLeast(left: nat, nz: nat, nthreads: nat)
    requires 0 < nthreads
    ensures 2 <= OwnPart(left, nz, nthreads) && Suffices(left, nz, nthreads, OwnPart(left, nz, nthreads))
    ensures forall c: nat :: 2 <= c < OwnPart(left, nz, nthreads) ==> !Suffices(left, nz, nthreads, c)
  {
    var o, k := OwnPart(left, nz, nthreads), 4 * nthreads;
    IceilIsLeast(left, nthreads, o);
    QuotientIsLeast(nz, k, o);
    forall c: nat | 2 <= c < o ensures !Suffices(left, nz, nthreads, c) {
      IceilIsLeast(left, nthreads, c);
      QuotientIsLeast(nz, k, c);
    }
  }

  lemma IceilIsLeast(a: nat, b: nat, c: nat)
    requires 0 < b
    ensures a <= c * b <==> Iceil(a, b) <= c
  {
    var q, r := a / b, a % b;
    assert a == q * b + r;
    Scales(c + 1, q, b);
    Scales(q, c, b);
    Scales(q + 1, c, b);
    assert (c + 1) * b == c * b + b && (q + 1) * b == q * b + b;
    Scales(c, q, b);
  }

  lemma QuotientIsLeast(a: nat, b: nat, c: nat)
    requires 0 < b
    ensures a < (c + 1) * b <==> a / b <= c
  {
    var q, r := a / b, a % b;
    assert a == q * b + r;
    Scales(q + 1, c + 1, b);
    Scales(c + 1, q, b);
    assert (q + 1) * b == q * b + b;
  }

  // With own >= 2 and own < size the chunk is at least one and at most own, and
  // what is left after all chunks is at least own and less than own + tasks.
  lemma ChunkBounds(size: nat, own: nat)
    requires 2 <= own < size
    ensures var tasks := Iceil(size, own) - 1;
            && 1 <= tasks
            && 1 <= (size - own) / tasks <= own
            && own <= size - tasks * ((size - own) / tasks) < own + tasks
  {
    IceilFits(size, own);
    DivideBounds(size - own, Iceil(size, own) - 1, own);
  }

  lemma IceilFits(size: nat, own: nat)
    requires 2 <= own < size
    ensures var tasks := Iceil(size, own) - 1; 1 <= tasks <= size - own <= tasks * own
  {
    TasksFit(size, own, size / own, size % own, Iceil(size, own) - 1);
  }

  lemma TasksFit(size: nat, own: nat, a: nat, r: nat, tasks: int)
    requires 2 <= own < size && size == a * own + r && r < own
    requires tasks == if r == 0 then a - 1 else a
    ensures 1 <= tasks <= size - own <= tasks * own
  {
    assert a == 0 ==> a * own == 0;
    assert a == 1 ==> a * own == own;
    assert (a - 1) * own == a * own - own;
    assert a >= 1 ==> (a - 1) * own >= (a - 1) * 2;
  }

  lemma DivideBounds(x: nat, tasks: nat, own: nat)
    requires 1 <= tasks <= x <= tasks * own
    ensures 1 <= x / tasks <= own
    ensures 0 <= x - tasks * (x / tasks) < tasks
  {
    QuotientBounds(x, tasks, own, x / tasks, x % tasks);
  }

  lemma QuotientBounds(x: nat, tasks: nat, own: nat, d: nat, m: nat)
    requires 1 <= tasks <= x <= tasks * own && x == tasks * d + m && m < tasks
    ensures 1 <= d <= own
  {
    assert tasks * (own + 1) == tasks * own + tasks;
    Scales(own + 1, d, tasks);
    Scales(d, 0, tasks);
  }

  // Tasks of `chunk` eigenvalues each, one after the other from begin up to end - 1.
  ghost predicate Tiles(tasks: seq<RefineTask>, chunk: nat, begin: int, end: int) {
    && (forall i :: 0 <= i < |tasks| ==> tasks[i].end == tasks[i].begin + chunk - 1)
    && (forall i :: 0 < i < |tasks| ==> Follows(tasks, i))
    && (if tasks == [] then end == begin else tasks[0].begin == begin && end == tasks[|tasks|-1].end + 1)
  }

  predicate Follows(tasks: seq<RefineTask>, i: int)
    requires 0 < i < |tasks|
  {
    tasks[i].begin == tasks[i-1].end + 1
  }

  // The local indices of a task are those of its interval.
  ghost predicate InStep(windex: seq<int>, t: RefineTask) {
    0 <= t.begin <= t.end < |windex| && t.p == windex[t.begin] && t.q == windex[t.end]
  }

  // Local indices are consecutive along a block.
  ghost predicate Consecutive(windex: seq<int>, begin: int, end: int) {
    0 <= begin && end < |windex| && forall i :: begin <= i <= end ==> windex[i] == windex[begin] + (i - begin)
  }

  method SplitRefinement(rfBegin: nat, rfEnd: nat, left: nat, nz: nat, nthreads: nat, windex: seq<int>)
    returns (tasks: seq<RefineTask>, own: RefineTask, ghost chunk: nat)
    requires rfBegin <= rfEnd && 0 < nthreads && Consecutive(windex, rfBegin, rfEnd)
    ensures Tiles(tasks, chunk, rfBegin, own.begin) && own.end == rfEnd
    ensures InStep(windex, own) && forall t :: t in tasks ==> InStep(windex, t)
    ensures var o := OwnPart(left, nz, nthreads);
            if o < rfEnd - rfBegin + 1 then
              && 1 <= |tasks| && |tasks| * o < rfEnd - rfBegin + 1 <= (|tasks| + 1) * o
              && 1 <= chunk <= o
              && o <= own.end - own.begin + 1 < o + |tasks|
            else tasks == []
  {
    var rfSize := rfEnd - rfBegin + 1;
    var ownPart := OwnPart(left, nz, nthreads);
    tasks, chunk := [], 0;
    if ownPart < rfSize {
      var othersPart := rfSize - ownPart;
      var numTasks := Iceil(rfSize, ownPart) - 1;
      ChunkBounds(rfSize, ownPart);
      IceilIsLeast(rfSize, ownPart, numTasks);
      IceilIsLeast(rfSize, ownPart, numTasks + 1);
      var size := othersPart / numTasks;
      chunk := size;
      tasks, own := SplitInChunks(rfBegin, rfEnd, numTasks, size, windex);
    } else {
      own := RefineTask(rfBegin, rfEnd, windex[rfBegin], windex[rfEnd]);
    }
  }

  method SplitInChunks(rfBegin: nat, rfEnd: nat, numTasks: nat, chunk: nat, windex: seq<int>)
    returns (tasks: seq<RefineTask>, own: RefineTask)
    requires rfBegin <= rfEnd && Consecutive(windex, rfBegin, rfEnd) && 1 <= chunk
    requires numTasks * chunk < rfEnd - rfBegin + 1
    ensures |tasks| == numTasks && Tiles(tasks, chunk, rfBegin, own.begin)
    ensures own.begin == rfBegin + numTasks * chunk && own.end == rfEnd
    ensures InStep(windex, own) && forall t :: t in tasks ==> InStep(windex, t)
  {
    tasks := [];
    var tsBegin, tsEnd := rfBegin, 0;
    var p, q := windex[rfBegin], 0;
    for i := 0 to numTasks
      invariant |tasks| == i && tsBegin == rfBegin + i * chunk
      invariant p == windex[rfBegin] + (tsBegin - rfBegin)
      invariant Tiles(tasks, chunk, rfBegin, tsBegin)
      invariant forall t :: t in tasks ==> InStep(windex, t)
    {
      tsEnd := tsBegin + chunk - 1;
      q := p + chunk - 1;
      OneMoreChunk(i, numTasks, chunk);
      TilesAppend(tasks, chunk, rfBegin, tsBegin, RefineTask(tsBegin, tsEnd, p, q));
      tasks := tasks + [RefineTask(tsBegin, tsEnd, p, q)];
      tsBegin := tsEnd + 1;
      p := q + 1;
    }
    own := RefineTask(tsBegin, rfEnd, p, windex[rfEnd]);
  }

  lemma TilesAppend(tasks: seq<RefineTask>, chunk: nat, begin: int, end: int, t: RefineTask)
    requires Tiles(tasks, chunk, begin, end) && t.begin == end && t.end == end + chunk - 1
    ensures Tiles(tasks + [t], chunk, begin, end + chunk)
  {
    forall i | 0 < i < |tasks| + 1 ensures Follows(tasks + [t], i) {
      assert i < |tasks| ==> Follows(tasks, i);
    }
  }

  lemma OneMoreChunk(i: nat, n: nat, chunk: nat)
    requires i < n
    ensures (i + 1) * chunk == i * chunk + chunk <= n * chunk
  {
    assert (n - i - 1) * chunk >= 0;
  }
}
