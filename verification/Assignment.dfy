// Dealing out eigenvalue indices to processes: assign_to_proc of plarrv.c, and
// the partition loop that plarre.c and pmrrr.c use for eigenvalues.
module Assignment {
  import opened Integers
  import opened Permutations
  import opened Tasks

  // Deal m items to p processes round by round: as long as there is one for
  // everybody each process gets one, and the last round serves the first ones.

  function Share(m: nat, p: nat, id: nat): nat
    requires 0 < p
  {
    if m < p then (if id < m then 1 else 0) else 1 + Share(m - p, p, id)
  }

  lemma {:induction false} ShareClosed(m: nat, p: nat, id: nat)
    requires 0 < p
    ensures Share(m, p, id) == m / p + if id < m % p then 1 else 0
  {
    if m >= p {
      ShareClosed(m - p, p, id);
      OneRoundLess(m, p);
    } else {
      assert m / p == 0 && m % p == m;
    }
  }

  lemma OneRoundLess(m: nat, p: nat)
    requires 0 < p <= m
    ensures m / p == 1 + (m - p) / p && m % p == (m - p) % p
  {
    var q, r := (m - p) / p, (m - p) % p;
    assert m == (q + 1) * p + r;
    DivModUnique(m, p, q + 1, r);
  }

  function Offset(m: nat, p: nat, id: nat): nat
    requires 0 < p
  {
    if id == 0 then 0 else Offset(m, p, id - 1) + Share(m, p, id - 1)
  }

  lemma {:induction false} OffsetsEnd(m: nat, p: nat)
    requires 0 < p
    ensures Offset(m, p, p) == m
  {
    if m < p {
      OffsetsOfOneRound(m, p, p);
    } else {
      OffsetsEnd(m - p, p);
      OffsetsOfMoreRounds(m, p, p);
    }
  }

  lemma {:induction false} OffsetsOfOneRound(m: nat, p: nat, id: nat)
    requires 0 < p && m < p
    ensures Offset(m, p, id) == if id < m then id else m
  {
    if id == 0 {
    } else {
      OffsetsOfOneRound(m, p, id - 1);
    }
  }

  lemma {:induction false} OffsetsOfMoreRounds(m: nat, p: nat, id: nat)
    requires 0 < p <= m
    ensures Offset(m, p, id) == id + Offset(m - p, p, id)
  {
    if id == 0 {
    } else {
      OffsetsOfMoreRounds(m, p, id - 1);
    }
  }

  lemma {:induction false} OffsetsAscend(m: nat, p: nat, id: nat, jd: nat)
    requires 0 < p && id <= jd
    ensures Offset(m, p, id) <= Offset(m, p, jd)
    decreases jd
  {
    if id == jd {
    } else {
      OffsetsAscend(m, p, id, jd - 1);
    }
  }

  // The process whose share holds item t.
  function OwnerFrom(m: nat, p: nat, t: nat, id: nat): (owner: nat)
    requires 0 < p && id < p && Offset(m, p, id) <= t < m
    ensures owner < p && Offset(m, p, owner) <= t < Offset(m, p, owner) + Share(m, p, owner)
    decreases p - id
  {
    OffsetsEnd(m, p);
    if t < Offset(m, p, id + 1) then id else OwnerFrom(m, p, t, id + 1)
  }

  lemma OwnerIsUnique(m: nat, p: nat, t: nat, a: nat, b: nat)
    requires 0 < p
    requires Offset(m, p, a) <= t < Offset(m, p, a + 1) && Offset(m, p, b) <= t < Offset(m, p, b + 1)
    ensures a == b
  {
    if a < b {
      OffsetsAscend(m, p, a + 1, b);
    } else if b < a {
      OffsetsAscend(m, p, b + 1, a);
    }
  }

  lemma SharesAreBalanced(m: nat, p: nat, id: nat, jd: nat)
    requires 0 < p && id < p && jd < p
    ensures Share(m, p, id) <= Share(m, p, jd) + 1
    ensures id <= jd ==> Share(m, p, jd) <= Share(m, p, id)
  {
    ShareClosed(m, p, id);
    ShareClosed(m, p, jd);
  }

  // What the loops compute: an even part, and one more for the first m % p processes.
  function Quota(m: nat, p: nat, id: nat): (q: nat)
    requires 0 < p
    ensures q == Share(m, p, id)
  {
    ShareClosed(m, p, id);
    m / p + if id < m % p then 1 else 0
  }

  // qsort with cmpa.

  // One entry of the array that assign_to_proc sorts.
  datatype Entry = Entry(lambda: real, localInd: int, blockInd: int)

  function Cmpa(a: Entry, b: Entry): int {
    if a.blockInd == b.blockInd then a.localInd - b.localInd
    else if a.lambda < b.lambda then -1
    else if a.lambda > b.lambda then 1
    else if a.localInd < b.localInd then -1
    else 1
  }

  // The sort is given by the permutation it applies: order[j] is the index of the
  // entry that it puts at place j.

  ghost predicate SortedByCmpa(entries: seq<Entry>, order: seq<nat>)
    requires IsPermutation(order, |entries|)
  {
    forall j, k :: 0 <= j < k < |order| ==> Cmpa(entries[order[j]], entries[order[k]]) <= 0
  }

  // No entry is placed before one that cmpa puts strictly before it. Unlike the
  // above this can be met whatever ties there are.
  ghost predicate SortedUpToTies(entries: seq<Entry>, order: seq<nat>)
    requires IsPermutation(order, |entries|)
  {
    forall j, k :: 0 <= j < k < |order| ==> 0 <= Cmpa(entries[order[k]], entries[order[j]])
  }

  // All that the deal needs of the sort: each block stays in the order of its
  // local indices.
  ghost predicate KeepsBlocks(entries: seq<Entry>, order: seq<nat>)
    requires IsPermutation(order, |entries|)
  {
    forall j, k :: 0 <= j < k < |order| ==> InBlockOrder(entries[order[j]], entries[order[k]])
  }

  predicate InBlockOrder(a: Entry, b: Entry) {
    a.blockInd == b.blockInd ==> a.localInd <= b.localInd
  }

  lemma SortKeepsBlocks(entries: seq<Entry>, order: seq<nat>)
    requires IsPermutation(order, |entries|)
    ensures SortedByCmpa(entries, order) ==> SortedUpToTies(entries, order)
    ensures SortedUpToTies(entries, order) ==> KeepsBlocks(entries, order)
  {
    if SortedByCmpa(entries, order) {
      forall j, k | 0 <= j < k < |order| ensures 0 <= Cmpa(entries[order[k]], entries[order[j]]) {
        assert Cmpa(entries[order[j]], entries[order[k]]) <= 0;
      }
    }
    if SortedUpToTies(entries, order) {
      forall j, k | 0 <= j < k < |order| ensures InBlockOrder(entries[order[j]], entries[order[k]]) {
        assert 0 <= Cmpa(entries[order[k]], entries[order[j]]);
      }
    }
  }

  // What is wanted of the sort: the values ascend.

  // Along each block the values do not descend.
  ghost predicate BlocksAscend(entries: seq<Entry>) {
    forall i, j :: 0 <= i < |entries| && 0 <= j < |entries| ==> NoDescent(entries[i], entries[j])
  }

  predicate NoDescent(a: Entry, b: Entry) {
    a.blockInd == b.blockInd && a.localInd <= b.localInd ==> a.lambda <= b.lambda
  }

  lemma SortedValuesAscend(entries: seq<Entry>, order: seq<nat>, j: nat, k: nat)
    requires IsPermutation(order, |entries|) && SortedUpToTies(entries, order) && BlocksAscend(entries)
    requires j <= k < |order|
    ensures entries[order[j]].lambda <= entries[order[k]].lambda
  {
    assert NoDescent(entries[order[j]], entries[order[k]]);
    if j < k {
      assert 0 <= Cmpa(entries[order[k]], entries[order[j]]);
    }
  }

  ghost function Below(entries: seq<Entry>, v: real): set<int> {
    set i | 0 <= i < |entries| && entries[i].lambda < v
  }

  ghost function UpTo(entries: seq<Entry>, v: real): set<int> {
    set i | 0 <= i < |entries| && entries[i].lambda <= v
  }

  // v is the k-th smallest of the values, counted from one and with multiplicity.
  ghost predicate IsSmallest(entries: seq<Entry>, k: int, v: real) {
    |Below(entries, v)| < k <= |UpTo(entries, v)|
  }

  lemma SmallestIsUnique(entries: seq<Entry>, k: int, v: real, w: real)
    requires IsSmallest(entries, k, v) && IsSmallest(entries, k, w)
    ensures v == w
  {
    if v < w {
      SubsetIsSmaller(UpTo(entries, v), Below(entries, w));
    } else if w < v {
      SubsetIsSmaller(UpTo(entries, w), Below(entries, v));
    }
  }

  // The entries at the first n places.
  ghost function Front(order: seq<nat>, n: nat): set<int>
    requires n <= |order|
  {
    set p | 0 <= p < n :: order[p] as int
  }

  lemma {:induction false} FrontHas(order: seq<nat>, n: nat)
    requires IsPermutation(order, |order|) && n <= |order|
    ensures |Front(order, n)| == n
  {
    if n == 0 {
    } else {
      FrontHas(order, n - 1);
      assert Front(order, n) == Front(order, n - 1) + {order[n-1] as int};
    }
  }

  // The sort puts the (j+1)-th smallest value at place j.
  lemma PlaceIsRank(entries: seq<Entry>, order: seq<nat>, j: nat)
    requires IsPermutation(order, |entries|) && SortedUpToTies(entries, order) && BlocksAscend(entries) && j < |order|
    ensures IsSmallest(entries, j + 1, entries[order[j]].lambda)
  {
    var v := entries[order[j]].lambda;
    FrontHas(order, j);
    FrontHas(order, j + 1);
    forall i | i in Below(entries, v) ensures i in Front(order, j) {
      var p := PlaceOf(order, i);
      if j <= p {
        SortedValuesAscend(entries, order, j, p);
      }
    }
    SubsetIsSmaller(Below(entries, v), Front(order, j));
    forall i | i in Front(order, j + 1) ensures i in UpTo(entries, v) {
      var p :| 0 <= p < j + 1 && order[p] == i;
      SortedValuesAscend(entries, order, p, j);
    }
    SubsetIsSmaller(Front(order, j + 1), UpTo(entries, v));
  }

  // Two entries of different blocks that agree in value and local index: then no
  // order at all has every pair in the order of cmpa.
  lemma TiesCannotBeSorted(entries: seq<Entry>, order: seq<nat>, a: nat, b: nat)
    requires IsPermutation(order, |entries|) && a < |entries| && b < |entries|
    requires entries[a].blockInd != entries[b].blockInd
    requires entries[a].lambda == entries[b].lambda && entries[a].localInd == entries[b].localInd
    ensures !SortedByCmpa(entries, order)
  {
    var j := PlaceOf(order, a);
    var k := PlaceOf(order, b);
    assert Cmpa(entries[order[j]], entries[order[k]]) == 1 == Cmpa(entries[order[k]], entries[order[j]]);
  }

  // The eigenvalues of a block carry its number, and local indices that ascend.
  ghost predicate IsBlock(entries: seq<Entry>, block: Interval) {
    && block.first <= block.last < |entries|
    && forall i, j :: block.first <= i < j <= block.last ==>
         entries[i].blockInd == entries[j].blockInd && entries[i].localInd < entries[j].localInd
  }

  // cmpa is a proper comparison (exactly one of two different entries is the
  // smaller one) exactly when no two entries of different blocks agree in value
  // and local index.
  lemma CmpaIsProperIff(entries: seq<Entry>)
    requires forall i, j :: 0 <= i < j < |entries| && entries[i].blockInd == entries[j].blockInd
               ==> entries[i].localInd != entries[j].localInd
    ensures (forall i, j :: 0 <= i < j < |entries| ==>
               (Cmpa(entries[i], entries[j]) < 0 <==> Cmpa(entries[j], entries[i]) > 0))
       <==> (forall i, j :: 0 <= i < j < |entries| && entries[i].blockInd != entries[j].blockInd ==>
               entries[i].lambda != entries[j].lambda || entries[i].localInd != entries[j].localInd)
  {
  }

  lemma CmpaTieExample()
    ensures var a, b := Entry(1.0, 1, 1), Entry(1.0, 1, 2); Cmpa(a, b) == 1 && Cmpa(b, a) == 1
  {
  }

  // With values that do not descend inside a block, cmpa orders transitively.
  lemma CmpaIsTransitive(a: Entry, b: Entry, c: Entry)
    requires forall x, y :: x in {a, b, c} && y in {a, b, c} && x.blockInd == y.blockInd && x.localInd <= y.localInd
               ==> x.lambda <= y.lambda
    requires Cmpa(a, b) <= 0 && Cmpa(b, c) <= 0
    ensures Cmpa(a, c) <= 0
  {
    assert a in {a, b, c} && b in {a, b, c} && c in {a, b, c};
  }

  // assign_to_proc.

  // What is stored for the entry at place j of the sorted array.
  function ProcAt(il: nat, iu: nat, nproc: nat, j: nat): int
    requires 0 < nproc && 1 <= il <= iu + 1
  {
    if j < il - 1 || iu <= j then -1 else OwnerFrom(iu - il + 1, nproc, j - (il - 1), 0)
  }

  function ZAt(il: nat, iu: nat, nproc: nat, j: nat): int
    requires 0 < nproc && 1 <= il <= iu + 1
  {
    if j < il - 1 || iu <= j then -1
    else j - (il - 1) - Offset(iu - il + 1, nproc, OwnerFrom(iu - il + 1, nproc, j - (il - 1), 0))
  }

  ghost predicate IsAssigned(order: seq<nat>, il: nat, iu: nat, nproc: nat, iproc: seq<int>, zindex: seq<int>)
    requires 0 < nproc && 1 <= il <= iu + 1
  {
    && |iproc| == |zindex| == |order|
    && forall j :: 0 <= j < |order| ==> AssignedAt(order, il, iu, nproc, iproc, zindex, j)
  }

  ghost predicate AssignedAt(order: seq<nat>, il: nat, iu: nat, nproc: nat, iproc: seq<int>, zindex: seq<int>, j: nat)
    requires 0 < nproc && 1 <= il <= iu + 1 && j < |order|
  {
    order[j] < |iproc| && order[j] < |zindex|
    && iproc[order[j]] == ProcAt(il, iu, nproc, j) && zindex[order[j]] == ZAt(il, iu, nproc, j)
  }

  method AssignToProc(order: seq<nat>, pid: nat, nproc: nat, il: nat, iu: nat, iproc: array<int>, zindex: array<int>)
    returns (myFirst: int, nz: int)
    requires IsPermutation(order, iproc.Length) && zindex.Length == iproc.Length && iproc != zindex
    requires pid < nproc && 1 <= il <= iu + 1 && iu <= iproc.Length
    modifies iproc, zindex
    ensures IsAssigned(order, il, iu, nproc, iproc[..], zindex[..])
    ensures nz == Share(iu - il + 1, nproc, pid) && myFirst == Offset(iu - il + 1, nproc, pid)
  {
    var n := iproc.Length;
    var isize := iu - il + 1;
    myFirst, nz := 0, 0;
    for j := 0 to il - 1
      invariant forall k :: 0 <= k < j ==> AssignedAt(order, il, iu, nproc, iproc[..], zindex[..], k)
    {
      Put(order, il, iu, nproc, iproc, zindex, j, -1, -1);
    }
    var ibegin := il - 1;
    var iend := ibegin - 1;
    for id := 0 to nproc
      invariant ibegin == il - 1 + Offset(isize, nproc, id) <= iu
      invariant id > 0 ==> iend + 1 == ibegin
      invariant id == nproc ==> ibegin == iu
      invariant forall k :: 0 <= k < ibegin ==> AssignedAt(order, il, iu, nproc, iproc[..], zindex[..], k)
      invariant id > pid ==> nz == Share(isize, nproc, pid) && myFirst == Offset(isize, nproc, pid)
    {
      iend := ChunkEnd(il, iu, nproc, id, ibegin);
      var k := 0;
      for j := ibegin to iend + 1
        invariant k == j - ibegin
        invariant forall i :: 0 <= i < j ==> AssignedAt(order, il, iu, nproc, iproc[..], zindex[..], i)
      {
        OwnerIsUnique(isize, nproc, j - (il - 1), id, OwnerFrom(isize, nproc, j - (il - 1), 0));
        Put(order, il, iu, nproc, iproc, zindex, j, id, k);
        k := k + 1;
      }
      if id == pid {
        myFirst := ibegin - il + 1;
        nz := iend - ibegin + 1;
      }
      ibegin := iend + 1;
      ibegin := Min(ibegin, iu);
    }
    for j := iend + 1 to n
      invariant forall k :: 0 <= k < j ==> AssignedAt(order, il, iu, nproc, iproc[..], zindex[..], k)
    {
      Put(order, il, iu, nproc, iproc, zindex, j, -1, -1);
    }
  }

  // Where the chunk of process id ends.
  method ChunkEnd(il: nat, iu: nat, nproc: nat, id: nat, ibegin: nat) returns (iend: int)
    requires id < nproc && 1 <= il <= iu + 1 && ibegin == il - 1 + Offset(iu - il + 1, nproc, id)
    ensures iend - ibegin + 1 == Share(iu - il + 1, nproc, id)
    ensures iend + 1 == il - 1 + Offset(iu - il + 1, nproc, id + 1) <= iu
    ensures id == nproc - 1 ==> iend + 1 == iu
  {
    var isize := iu - il + 1;
    var chunk := Max(1, Quota(isize, nproc, id));
    ChunkIsShare(isize, nproc, id);
    if id == nproc - 1 {
      iend := iu - 1;
    } else {
      iend := ibegin + chunk - 1;
      iend := Min(iend, iu - 1);
    }
  }

  // Forcing a chunk of at least one never gives a process more than its share,
  // because the end is clipped to the last wanted index.
  lemma ChunkIsShare(m: nat, p: nat, id: nat)
    requires 0 < p && id < p
    ensures Offset(m, p, id) + Share(m, p, id) <= m
    ensures id == p - 1 ==> Offset(m, p, id) + Share(m, p, id) == m
    ensures Min(Offset(m, p, id) + Max(1, Share(m, p, id)) - 1, m - 1) == Offset(m, p, id) + Share(m, p, id) - 1
  {
    OffsetsEnd(m, p);
    OffsetsAscend(m, p, id + 1, p);
    EmptyShareIsLast(m, p, id);
    ClippedChunk(Offset(m, p, id), Share(m, p, id), m);
  }

  lemma ClippedChunk(offset: nat, share: nat, m: nat)
    requires offset + share <= m && (share == 0 ==> offset == m)
    ensures Min(offset + Max(1, share) - 1, m - 1) == offset + share - 1
  {
  }

  lemma EmptyShareIsLast(m: nat, p: nat, id: nat)
    requires 0 < p && id < p
    ensures Share(m, p, id) == 0 ==> Offset(m, p, id) == m
  {
    if m < p {
      OffsetsOfOneRound(m, p, id);
    }
  }

  method Put(order: seq<nat>, il: nat, iu: nat, nproc: nat, iproc: array<int>, zindex: array<int>, j: nat, id: int,
             k: int)
    requires IsPermutation(order, iproc.Length) && zindex.Length == iproc.Length && iproc != zindex
    requires 0 < nproc && 1 <= il <= iu + 1 && iu <= iproc.Length && j < iproc.Length
    requires id == ProcAt(il, iu, nproc, j) && k == ZAt(il, iu, nproc, j)
    modifies iproc, zindex
    ensures forall i :: 0 <= i < |order| && (i == j || old(AssignedAt(order, il, iu, nproc, iproc[..], zindex[..], i)))
              ==> AssignedAt(order, il, iu, nproc, iproc[..], zindex[..], i)
  {
    iproc[order[j]] := id;
    zindex[order[j]] := k;
  }

  // Every process owns as many indices as its share, and zindex numbers them
  // from 0 without gaps or repetitions.
  lemma ZindexIsBijection(order: seq<nat>, il: nat, iu: nat, nproc: nat, iproc: seq<int>, zindex: seq<int>, id: nat)
    requires 0 < nproc && 1 <= il <= iu + 1 && iu <= |order| && id < nproc
    requires IsPermutation(order, |order|) && IsAssigned(order, il, iu, nproc, iproc, zindex)
    ensures forall i :: 0 <= i < |iproc| && iproc[i] == id ==> 0 <= zindex[i] < Share(iu - il + 1, nproc, id)
    ensures forall i, j :: 0 <= i < j < |iproc| && iproc[i] == id == iproc[j] ==> zindex[i] != zindex[j]
    ensures forall k :: 0 <= k < Share(iu - il + 1, nproc, id) ==> HasZ(iproc, zindex, id, k)
  {
    var m := iu - il + 1;
    forall i | 0 <= i < |iproc| && iproc[i] == id
      ensures 0 <= zindex[i] < Share(m, nproc, id)
      ensures il - 1 + Offset(m, nproc, id) + zindex[i] < |order|
      ensures order[il - 1 + Offset(m, nproc, id) + zindex[i]] == i
    {
      var j := PlaceOf(order, i);
      assert AssignedAt(order, il, iu, nproc, iproc, zindex, j);
    }
    forall k | 0 <= k < Share(m, nproc, id) ensures HasZ(iproc, zindex, id, k) {
      ChunkIsShare(m, nproc, id);
      var j := il - 1 + Offset(m, nproc, id) + k;
      OwnerIsUnique(m, nproc, j - (il - 1), id, OwnerFrom(m, nproc, j - (il - 1), 0));
      assert AssignedAt(order, il, iu, nproc, iproc, zindex, j);
      assert iproc[order[j]] == id && zindex[order[j]] == k;
    }
  }

  ghost predicate HasZ(iproc: seq<int>, zindex: seq<int>, id: int, k: int)
    requires |iproc| == |zindex|
  {
    exists i :: 0 <= i < |iproc| && iproc[i] == id && zindex[i] == k
  }

  // The wanted indices are those of the il-th to the iu-th smallest value: what a
  // process owns are consecutive ones, from the one that its offset names, in the
  // order of their numbers; a value that is not wanted has a rank outside.
  lemma WantedAreSmallest(entries: seq<Entry>, order: seq<nat>, il: nat, iu: nat, nproc: nat, iproc: seq<int>,
                          zindex: seq<int>, i: nat)
    requires IsPermutation(order, |entries|) && SortedUpToTies(entries, order) && BlocksAscend(entries)
    requires 0 < nproc && 1 <= il <= iu + 1 && iu <= |order| && i < |entries|
    requires IsAssigned(order, il, iu, nproc, iproc, zindex)
    ensures iproc[i] >= 0 ==>
        IsSmallest(entries, il + Offset(iu - il + 1, nproc, iproc[i]) + zindex[i], entries[i].lambda)
    ensures iproc[i] < 0 ==>
        exists k :: (1 <= k < il || iu < k <= |entries|) && IsSmallest(entries, k, entries[i].lambda)
  {
    var j := PlaceOf(order, i);
    PlaceIsRank(entries, order, j);
    assert AssignedAt(order, il, iu, nproc, iproc, zindex, j);
  }

  // Inside a block owners ascend and the wanted indices are contiguous.
  lemma OwnersAscend(entries: seq<Entry>, order: seq<nat>, block: Interval,
                     il: nat, iu: nat, nproc: nat, iproc: seq<int>, zindex: seq<int>)
    requires IsPermutation(order, |entries|) && KeepsBlocks(entries, order) && IsBlock(entries, block)
    requires 0 < nproc && 1 <= il <= iu + 1 && iu <= |order|
    requires IsAssigned(order, il, iu, nproc, iproc, zindex)
    ensures Ascending(iproc, block)
  {
    forall i, j, k | Between(i, j, k) && block.first <= i && k <= block.last && iproc[i] >= 0 && iproc[k] >= 0
      ensures iproc[i] <= iproc[j] <= iproc[k]
    {
      var pi := PlaceOf(order, i);
      var pj := PlaceOf(order, j);
      var pk := PlaceOf(order, k);
      SortKeepsBlock(entries, order, block, i, j, pi, pj);
      SortKeepsBlock(entries, order, block, j, k, pj, pk);
      assert AssignedAt(order, il, iu, nproc, iproc, zindex, pi);
      assert AssignedAt(order, il, iu, nproc, iproc, zindex, pj);
      assert AssignedAt(order, il, iu, nproc, iproc, zindex, pk);
      LaterPlaceLaterOwner(il, iu, nproc, pi, pj);
      LaterPlaceLaterOwner(il, iu, nproc, pj, pk);
    }
  }

  lemma SortKeepsBlock(entries: seq<Entry>, order: seq<nat>, block: Interval, i: nat, j: nat, pi: nat, pj: nat)
    requires IsPermutation(order, |entries|) && KeepsBlocks(entries, order) && IsBlock(entries, block)
    requires block.first <= i <= j <= block.last
    requires pi < |order| && pj < |order| && order[pi] == i && order[pj] == j
    ensures pi <= pj
  {
  }

  lemma LaterPlaceLaterOwner(il: nat, iu: nat, nproc: nat, j: nat, k: nat)
    requires 0 < nproc && 1 <= il <= iu + 1 && il - 1 <= j <= k < iu
    ensures ProcAt(il, iu, nproc, j) <= ProcAt(il, iu, nproc, k)
  {
    var m := iu - il + 1;
    var a, b := ProcAt(il, iu, nproc, j), ProcAt(il, iu, nproc, k);
    if b < a {
      OffsetsAscend(m, nproc, b + 1, a);
    }
  }

  method PartEnd(nproc: nat, iil: nat, iiu: nat, i: nat, ifirstTmp: nat) returns (ilastTmp: int)
    requires i < nproc && iil <= iiu + 1
    requires ifirstTmp == iil + Offset(iiu - iil + 1, nproc, i)
    ensures ilastTmp + 1 == iil + Offset(iiu - iil + 1, nproc, i + 1) <= iiu + 1
    ensures ilastTmp - ifirstTmp + 1 == Share(iiu - iil + 1, nproc, i)
  {
    var chunk := Quota(iiu - iil + 1, nproc, i);
    ChunkIsShare(iiu - iil + 1, nproc, i);
    if i == nproc - 1 {
      ilastTmp := iiu;
    } else {
      ilastTmp := ifirstTmp + chunk - 1;
      ilastTmp := Min(ilastTmp, iiu);
    }
  }

  // The partition loop of plarre.c, for the eigenvalues iil..iiu of a block.
  // It has no forced chunk, yet agrees with assign_to_proc for every number of
  // processes.
  method PartitionEigenvalues(pid: nat, nproc: nat, iil: nat, iiu: nat, rcount: array<int>, rdispl: array<int>)
    returns (ifirst: int, ilast: int)
    requires pid < nproc && rcount.Length == rdispl.Length == nproc && rcount != rdispl && iil <= iiu + 1
    modifies rcount, rdispl
    ensures forall id {:trigger rcount[id]} :: 0 <= id < nproc ==> rcount[id] == Share(iiu - iil + 1, nproc, id)
    ensures forall id {:trigger rdispl[id]} :: 0 <= id < nproc ==> rdispl[id] == Offset(iiu - iil + 1, nproc, id)
    ensures ifirst == iil + Offset(iiu - iil + 1, nproc, pid)
    ensures ilast == ifirst + Share(iiu - iil + 1, nproc, pid) - 1
  {
    ifirst, ilast := 0, 0;
    var ifirstTmp, ilastTmp := iil, 0;
    ghost var m: nat := iiu - iil + 1;
    for i := 0 to nproc
      invariant ifirstTmp == iil + Offset(m, nproc, i) <= iiu + 1
      invariant forall id {:trigger rcount[id]} :: 0 <= id < i ==> rcount[id] == Share(m, nproc, id)
      invariant forall id {:trigger rdispl[id]} :: 0 <= id < i ==> rdispl[id] == Offset(m, nproc, id)
      invariant i > pid ==> ifirst == iil + Offset(m, nproc, pid) && ilast == ifirst + Share(m, nproc, pid) - 1
    {
      ilastTmp := PartEnd(nproc, iil, iiu, i, ifirstTmp);
      if i == pid {
        ifirst, ilast := ifirstTmp, ilastTmp;
      }
      rcount[i] := ilastTmp - ifirstTmp + 1;
      rdispl[i] := ifirstTmp - iil;
      ifirstTmp := ilastTmp + 1;
      ifirstTmp := Min(ifirstTmp, iiu + 1);
    }
  }
}
