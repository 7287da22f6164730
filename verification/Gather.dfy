// Returning eigenvalues: the compaction and reordering at the end of pmrrr.c on
// each process, and PMR_comm_eigvals, which puts all of them on every process.
module Gather {
  import Assignment
  import opened Permutations

  // The indices below n that process pid owns, in ascending order.
  function Owned(iproc: seq<int>, pid: int, n: nat): (s: seq<nat>)
    requires n <= |iproc|
    ensures |s| <= n && forall j :: 0 <= j < |s| ==> s[j] < n && iproc[s[j]] == pid
  {
    if n == 0 then [] else Owned(iproc, pid, n - 1) + if iproc[n-1] == pid then [n-1] else []
  }

  lemma {:induction false} OwnedHasAll(iproc: seq<int>, pid: int, n: nat, i: nat)
    requires i < n <= |iproc| && iproc[i] == pid
    ensures exists j :: 0 <= j < |Owned(iproc, pid, n)| && Owned(iproc, pid, n)[j] == i
    decreases n
  {
    if i < n - 1 {
      OwnedHasAll(iproc, pid, n - 1, i);
      var j :| 0 <= j < |Owned(iproc, pid, n - 1)| && Owned(iproc, pid, n - 1)[j] == i;
      assert Owned(iproc, pid, n)[j] == i;
    } else {
      assert Owned(iproc, pid, n)[|Owned(iproc, pid, n)|-1] == i;
    }
  }

  datatype Entry = Entry(lambda: real, localInd: int, ind: int)

  function Cmpb(a: Entry, b: Entry): int {
    if a.ind < b.ind then -1 else 1
  }

  // The compacted entries of process pid.
  function Compacted(w: seq<real>, windex: seq<int>, zindex: seq<int>, owned: seq<nat>): (s: seq<Entry>)
    requires |w| == |windex| == |zindex| && forall j :: 0 <= j < |owned| ==> owned[j] < |w|
    ensures |s| == |owned|
  {
    seq(|owned|, j requires 0 <= j < |owned| => Entry(w[owned[j]], windex[owned[j]], zindex[owned[j]]))
  }

  // perm is what qsort with cmpb does to the entries.
  ghost predicate SortedByCmpb(entries: seq<Entry>, perm: seq<nat>) {
    && IsPermutation(perm, |entries|)
    && forall j, k :: 0 <= j < k < |perm| ==> Cmpb(entries[perm[j]], entries[perm[k]]) <= 0
  }

  // zindex numbers what pid owns from 0 to nz - 1.
  ghost predicate IsNumbering(iproc: seq<int>, zindex: seq<int>, pid: int, nz: nat) {
    && |iproc| == |zindex|
    && (forall i :: 0 <= i < |iproc| && iproc[i] == pid ==> 0 <= zindex[i] < nz)
    && (forall i, j :: 0 <= i < j < |iproc| && iproc[i] == pid == iproc[j] ==> zindex[i] != zindex[j])
    && (forall k :: 0 <= k < nz ==> Assignment.HasZ(iproc, zindex, pid, k))
  }

  // Distinct numbers in ascending order that hit everything below nz are 0, 1, 2, ...
  lemma {:induction false} AscendingOnto(zs: seq<int>, nz: nat, k: nat)
    requires forall i, j :: 0 <= i < j < |zs| ==> zs[i] < zs[j]
    requires forall i :: 0 <= i < |zs| ==> 0 <= zs[i]
    requires forall l :: 0 <= l < nz ==> l in zs
    requires k < nz
    ensures k < |zs| && zs[k] == k
    decreases k
  {
    if k > 0 {
      AscendingOnto(zs, nz, k - 1);
    }
    assert k in zs;
    var p :| 0 <= p < |zs| && zs[p] == k;
  }

  lemma {:induction false} AscendingFromZero(zs: seq<int>, i: nat)
    requires forall i, j :: 0 <= i < j < |zs| ==> zs[i] < zs[j]
    requires i < |zs| && 0 <= zs[0]
    ensures i <= zs[i]
  {
    if i == 0 {
    } else {
      AscendingFromZero(zs, i - 1);
    }
  }

  lemma AscendingIsIdentity(zs: seq<int>, nz: nat)
    requires forall i, j :: 0 <= i < j < |zs| ==> zs[i] < zs[j]
    requires forall i :: 0 <= i < |zs| ==> 0 <= zs[i] < nz
    requires forall l :: 0 <= l < nz ==> l in zs
    ensures |zs| == nz && forall k :: 0 <= k < nz ==> zs[k] == k
  {
    forall k | 0 <= k < nz ensures k < |zs| && zs[k] == k {
      AscendingOnto(zs, nz, k);
    }
    if nz > 0 {
      AscendingOnto(zs, nz, nz - 1);
    }
    if zs != [] {
      AscendingFromZero(zs, |zs| - 1);
    }
  }

  // The numbers that the sorted entries carry.
  function Numbers(es: seq<Entry>, perm: seq<nat>): (zs: seq<int>)
    requires forall j :: 0 <= j < |perm| ==> perm[j] < |es|
    ensures |zs| == |perm| && forall j :: 0 <= j < |perm| ==> zs[j] == es[perm[j]].ind
  {
    seq(|perm|, j requires 0 <= j < |perm| => es[perm[j]].ind)
  }

  lemma NumbersAreOnto(w: seq<real>, windex: seq<int>, zindex: seq<int>, iproc: seq<int>, pid: int, nz: nat,
                       perm: seq<nat>, l: nat)
    requires |w| == |windex| == |zindex| == |iproc| && IsNumbering(iproc, zindex, pid, nz) && l < nz
    requires IsPermutation(perm, |Owned(iproc, pid, |iproc|)|)
    ensures l in Numbers(Compacted(w, windex, zindex, Owned(iproc, pid, |iproc|)), perm)
  {
    var owned := Owned(iproc, pid, |iproc|);
    assert Assignment.HasZ(iproc, zindex, pid, l);
    var i :| 0 <= i < |iproc| && iproc[i] == pid && zindex[i] == l;
    OwnedHasAll(iproc, pid, |iproc|, i);
    var j :| 0 <= j < |owned| && owned[j] == i;
    var a := PlaceOf(perm, j);
    assert Numbers(Compacted(w, windex, zindex, owned), perm)[a] == l;
  }

  lemma SortedEntriesAreNumbered(w: seq<real>, windex: seq<int>, zindex: seq<int>, iproc: seq<int>, pid: int, nz: nat,
                                 perm: seq<nat>)
    requires |w| == |windex| == |zindex| == |iproc| && IsNumbering(iproc, zindex, pid, nz)
    requires SortedByCmpb(Compacted(w, windex, zindex, Owned(iproc, pid, |iproc|)), perm)
    ensures |perm| == nz
    ensures forall k :: 0 <= k < nz ==>
              && perm[k] < |Owned(iproc, pid, |iproc|)|
              && zindex[Owned(iproc, pid, |iproc|)[perm[k]]] == k
  {
    var owned := Owned(iproc, pid, |iproc|);
    var es := Compacted(w, windex, zindex, owned);
    var zs := Numbers(es, perm);
    forall i, j | 0 <= i < j < |zs| ensures zs[i] < zs[j] {
      assert Cmpb(es[perm[i]], es[perm[j]]) <= 0;
    }
    forall l | 0 <= l < nz ensures l in zs {
      NumbersAreOnto(w, windex, zindex, iproc, pid, nz, perm, l);
    }
    AscendingIsIdentity(zs, nz);
    forall k | 0 <= k < nz ensures perm[k] < |owned| && zindex[owned[perm[k]]] == k {
      assert zs[k] == k;
    }
  }

  // At the end of pmrrr: place k of W holds the value of the index numbered k.
  method CompactAndSort(w: array<real>, windex: array<int>, zindex: array<int>, iproc: seq<int>, pid: int,
                        ghost nz: nat, perm: seq<nat>)
    returns (im: nat)
    requires w.Length == windex.Length == zindex.Length == |iproc|
    requires windex != zindex
    requires IsNumbering(iproc, zindex[..], pid, nz)
    requires SortedByCmpb(Compacted(w[..], windex[..], zindex[..], Owned(iproc, pid, |iproc|)), perm)
    modifies w, windex, zindex
    ensures im == nz <= w.Length
    ensures forall i :: 0 <= i < |iproc| && iproc[i] == pid ==>
              && 0 <= old(zindex[i]) < nz
              && w[old(zindex[i])] == old(w[i])
              && windex[old(zindex[i])] == old(windex[i])
  {
    ghost var w0, x0, z0 := w[..], windex[..], zindex[..];
    im := Compact(w, windex, zindex, iproc, pid);
    var es := Pack(w, windex, zindex, im);
    assert es == Compacted(w0, x0, z0, Owned(iproc, pid, |iproc|));
    SortedEntriesAreNumbered(w0, x0, z0, iproc, pid, nz, perm);
    var sorted := seq(im, j requires 0 <= j < im => es[perm[j]]);  // qsort
    CopyBack(sorted, w, windex);
    EveryIndexIsPlaced(w0, x0, z0, iproc, pid, nz, perm, sorted);
  }

  lemma EveryIndexIsPlaced(w: seq<real>, windex: seq<int>, zindex: seq<int>, iproc: seq<int>, pid: int, nz: nat,
                           perm: seq<nat>, sorted: seq<Entry>)
    requires |w| == |windex| == |zindex| == |iproc| && IsNumbering(iproc, zindex, pid, nz)
    requires SortedByCmpb(Compacted(w, windex, zindex, Owned(iproc, pid, |iproc|)), perm)
    requires |sorted| == |perm|
    requires forall j :: 0 <= j < |perm| ==>
               sorted[j] == Compacted(w, windex, zindex, Owned(iproc, pid, |iproc|))[perm[j]]
    ensures forall i :: 0 <= i < |iproc| && iproc[i] == pid ==>
              0 <= zindex[i] < |sorted| && sorted[zindex[i]].lambda == w[i] && sorted[zindex[i]].localInd == windex[i]
  {
    SortedEntriesAreNumbered(w, windex, zindex, iproc, pid, nz, perm);
    var owned := Owned(iproc, pid, |iproc|);
    forall i | 0 <= i < |iproc| && iproc[i] == pid
      ensures 0 <= zindex[i] < |sorted| && sorted[zindex[i]].lambda == w[i] && sorted[zindex[i]].localInd == windex[i]
    {
      var i' := owned[perm[zindex[i]]];
      assert iproc[i'] == pid && zindex[i'] == zindex[i];
    }
  }

  method Pack(w: array<real>, windex: array<int>, zindex: array<int>, im: nat) returns (es: seq<Entry>)
    requires im <= w.Length == windex.Length == zindex.Length
    ensures |es| == im && forall j :: 0 <= j < im ==> es[j] == Entry(w[j], windex[j], zindex[j])
  {
    var sortArray := new Entry[im];
    for j := 0 to im
      invariant forall i :: 0 <= i < j ==> sortArray[i] == Entry(w[i], windex[i], zindex[i])
    {
      sortArray[j] := Entry(w[j], windex[j], zindex[j]);
    }
    es := sortArray[..];
  }

  method CopyBack(sorted: seq<Entry>, w: array<real>, windex: array<int>)
    requires |sorted| <= w.Length == windex.Length
    modifies w, windex
    ensures forall j :: 0 <= j < |sorted| ==> w[j] == sorted[j].lambda && windex[j] == sorted[j].localInd
  {
    for j := 0 to |sorted|
      invariant forall i :: 0 <= i < j ==> w[i] == sorted[i].lambda && windex[i] == sorted[i].localInd
    {
      w[j] := sorted[j].lambda;
      windex[j] := sorted[j].localInd;
    }
  }

  // The front of `now` holds the entries of `was` at the places `owned`, and from
  // place j on nothing has changed.
  ghost predicate IsMoved<T>(was: seq<T>, now: seq<T>, owned: seq<nat>, j: nat) {
    && |owned| <= j <= |now| == |was|
    && (forall k :: 0 <= k < |owned| ==> owned[k] < j && now[k] == was[owned[k]])
    && (forall k :: j <= k < |now| ==> now[k] == was[k])
  }

  lemma MovedNext<T>(was: seq<T>, now: seq<T>, owned: seq<nat>, j: nat)
    requires IsMoved(was, now, owned, j) && j < |now|
    ensures IsMoved(was, now, owned, j + 1)
    ensures IsMoved(was, now[|owned| := now[j]], owned + [j], j + 1)
  {
  }

  method Compact(w: array<real>, windex: array<int>, zindex: array<int>, iproc: seq<int>, pid: int) returns (im: nat)
    requires w.Length == windex.Length == zindex.Length == |iproc| && windex != zindex
    modifies w, windex, zindex
    ensures im == |Owned(iproc, pid, |iproc|)| <= w.Length
    ensures IsMoved(old(w[..]), w[..], Owned(iproc, pid, |iproc|), |iproc|)
    ensures IsMoved(old(windex[..]), windex[..], Owned(iproc, pid, |iproc|), |iproc|)
    ensures IsMoved(old(zindex[..]), zindex[..], Owned(iproc, pid, |iproc|), |iproc|)
  {
    ghost var w0, windex0, zindex0 := w[..], windex[..], zindex[..];
    im := 0;
    for j := 0 to w.Length
      invariant im == |Owned(iproc, pid, j)| <= j
      invariant IsMoved(w0, w[..], Owned(iproc, pid, j), j)
      invariant IsMoved(windex0, windex[..], Owned(iproc, pid, j), j)
      invariant IsMoved(zindex0, zindex[..], Owned(iproc, pid, j), j)
    {
      MovedNext(w0, w[..], Owned(iproc, pid, j), j);
      MovedNext(windex0, windex[..], Owned(iproc, pid, j), j);
      MovedNext(zindex0, zindex[..], Owned(iproc, pid, j), j);
      if iproc[j] == pid {
        w[im] := w[j];
        windex[im] := windex[j];
        zindex[im] := zindex[j];
        im := im + 1;
      }
    }
  }

  // PMR_comm_eigvals: the all-gather with the counts and displacements that the
  // processes contribute.
  method CommEigvals(locals: seq<seq<real>>, nz: seq<nat>, myFirst: seq<nat>, m: nat, w: array<real>)
    requires 0 < |locals| == |nz| == |myFirst| && m <= w.Length
    requires forall p :: 0 <= p < |nz| ==> IsPart(locals, nz, myFirst, m, p)
    modifies w
    ensures forall p, t :: 0 <= p < |locals| && 0 <= t < nz[p] ==> InPlace(locals, myFirst, w[..], p, t)
    ensures forall k :: m <= k < w.Length ==> w[k] == old(w[k])
  {
    Assignment.OffsetsEnd(m, |nz|);
    for p := 0 to |locals|
      invariant forall q, t :: 0 <= q < p && 0 <= t < nz[q] ==> InPlace(locals, myFirst, w[..], q, t)
      invariant forall k :: m <= k < w.Length ==> w[k] == old(w[k])
    {
      assert IsPart(locals, nz, myFirst, m, p);
      Assignment.OffsetsAscend(m, |nz|, p + 1, |nz|);
      ghost var before := w[..];
      CopyTo(locals[p], nz[p], w, myFirst[p]);
      forall q, t | 0 <= q < p + 1 && 0 <= t < nz[q] ensures InPlace(locals, myFirst, w[..], q, t) {
        if q < p {
          assert IsPart(locals, nz, myFirst, m, q) && InPlace(locals, myFirst, before, q, t);
          Assignment.OffsetsAscend(m, |nz|, q + 1, p);
        }
      }
    }
  }

  // What process p contributes: its share, starting where the shares before it end.
  ghost predicate IsPart(locals: seq<seq<real>>, nz: seq<nat>, myFirst: seq<nat>, m: nat, p: nat)
    requires p < |locals| == |nz| == |myFirst|
  {
    nz[p] == Assignment.Share(m, |nz|, p) <= |locals[p]| && myFirst[p] == Assignment.Offset(m, |nz|, p)
  }

  predicate InPlace(locals: seq<seq<real>>, myFirst: seq<nat>, w: seq<real>, p: nat, t: nat)
    requires p < |locals| == |myFirst|
  {
    t < |locals[p]| && myFirst[p] + t < |w| && w[myFirst[p] + t] == locals[p][t]
  }

  method CopyTo(src: seq<real>, count: nat, w: array<real>, displ: nat)
    requires count <= |src| && displ + count <= w.Length
    modifies w
    ensures forall k :: 0 <= k < w.Length ==>
              w[k] == if displ <= k < displ + count then src[k - displ] else old(w[k])
  {
    for t := 0 to count
      invariant forall k :: 0 <= k < w.Length ==>
                  w[k] == if displ <= k < displ + t then src[k - displ] else old(w[k])
    {
      w[displ + t] := src[t];
    }
  }

  // Place k of the gathered array is the final value of the k-th wanted index,
  // as computed by the process that owns it.
  lemma GatheredInOrder(order: seq<nat>, il: nat, iu: nat, nproc: nat, iproc: seq<int>, zindex: seq<int>,
                        final: seq<seq<real>>, locals: seq<seq<real>>, nz: seq<nat>, myFirst: seq<nat>,
                        w: seq<real>, k: nat)
    requires 0 < nproc && 1 <= il <= iu + 1 && iu <= |order| && k < iu - il + 1
    requires IsPermutation(order, |order|) && Assignment.IsAssigned(order, il, iu, nproc, iproc, zindex)
    requires |final| == |locals| == |nz| == |myFirst| == nproc
    requires forall p :: 0 <= p < nproc ==> |final[p]| == |order| && IsPart(locals, nz, myFirst, iu - il + 1, p)
    requires forall i :: 0 <= i < |order| && 0 <= iproc[i] < nproc ==>
               0 <= zindex[i] < |locals[iproc[i]]| && locals[iproc[i]][zindex[i]] == final[iproc[i]][i]
    requires forall p, t :: 0 <= p < nproc && 0 <= t < nz[p] ==> InPlace(locals, myFirst, w, p, t)
    ensures k < |w| && 0 <= iproc[order[il - 1 + k]] < nproc
    ensures w[k] == final[iproc[order[il - 1 + k]]][order[il - 1 + k]]
  {
    var m := iu - il + 1;
    var j := il - 1 + k;
    assert Assignment.AssignedAt(order, il, iu, nproc, iproc, zindex, j);
    var p := Assignment.OwnerFrom(m, nproc, k, 0);
    assert IsPart(locals, nz, myFirst, m, p);
    assert InPlace(locals, myFirst, w, p, k - Assignment.Offset(m, nproc, p));
  }

  // What assign_to_proc leaves behind numbers the indices of every process.
  lemma AssignmentNumbers(order: seq<nat>, il: nat, iu: nat, nproc: nat, iproc: seq<int>, zindex: seq<int>, p: nat)
    requires 0 < nproc && 1 <= il <= iu + 1 && iu <= |order| && p < nproc
    requires IsPermutation(order, |order|) && Assignment.IsAssigned(order, il, iu, nproc, iproc, zindex)
    ensures IsNumbering(iproc, zindex, p, Assignment.Share(iu - il + 1, nproc, p))
  {
    Assignment.ZindexIsBijection(order, il, iu, nproc, iproc, zindex, p);
  }

  // One process: the end of pmrrr, from the values that it has computed.
  method CompactOne(final: seq<real>, windex: seq<int>, zindex: seq<int>, iproc: seq<int>, p: int, ghost nz: nat,
                    perm: seq<nat>)
    returns (local: seq<real>, im: nat)
    requires |final| == |windex| == |zindex| == |iproc| && IsNumbering(iproc, zindex, p, nz)
    requires SortedByCmpb(Compacted(final, windex, zindex, Owned(iproc, p, |iproc|)), perm)
    ensures im == nz <= |local| == |final|
    ensures forall i :: 0 <= i < |iproc| && iproc[i] == p ==> 0 <= zindex[i] < nz && local[zindex[i]] == final[i]
  {
    var n := |final|;
    var w := new real[n](i requires 0 <= i < n => final[i]);
    var x := new int[n](i requires 0 <= i < n => windex[i]);
    var z := new int[n](i requires 0 <= i < n => zindex[i]);
    assert w[..] == final && x[..] == windex && z[..] == zindex;
    im := CompactAndSort(w, x, z, iproc, p, nz, perm);
    local := w[..];
  }

  // The parts of the first p processes are ready for the gathering.
  ghost predicate AreCompacted(final: seq<seq<real>>, zindex: seq<int>, iproc: seq<int>, m: nat, nproc: nat,
                               locals: seq<seq<real>>, nz: seq<nat>, myFirst: seq<nat>, p: nat)
    requires 0 < nproc && |zindex| == |iproc|
  {
    && |locals| == |nz| == |myFirst| == p <= |final|
    && forall q :: 0 <= q < p ==> IsCompacted(final[q], zindex, iproc, m, nproc, locals[q], nz[q], myFirst[q], q)
  }

  ghost predicate IsCompacted(final: seq<real>, zindex: seq<int>, iproc: seq<int>, m: nat, nproc: nat, local: seq<real>,
                              nz: nat, myFirst: nat, q: nat)
    requires 0 < nproc && |zindex| == |iproc|
  {
    && |final| == |iproc| && nz == Assignment.Share(m, nproc, q) <= |local| && myFirst == Assignment.Offset(m, nproc, q)
    && forall i :: 0 <= i < |iproc| && iproc[i] == q ==> 0 <= zindex[i] < nz && local[zindex[i]] == final[i]
  }

  // All processes: the end of pmrrr on each, then PMR_comm_eigvals. Place k of the
  // result holds the value of the k-th wanted index as its owner computed it.
  method CompactAndGather(order: seq<nat>, il: nat, iu: nat, nproc: nat, iproc: seq<int>, zindex: seq<int>,
                          final: seq<seq<real>>, windex: seq<seq<int>>, perms: seq<seq<nat>>, w: array<real>)
    requires 0 < nproc && 1 <= il <= iu + 1 && iu <= |order| && iu - il + 1 <= w.Length
    requires IsPermutation(order, |order|) && Assignment.IsAssigned(order, il, iu, nproc, iproc, zindex)
    requires |final| == |windex| == |perms| == nproc
    requires forall p :: 0 <= p < nproc ==> |final[p]| == |windex[p]| == |order|
    requires forall p :: 0 <= p < nproc ==>
               SortedByCmpb(Compacted(final[p], windex[p], zindex, Owned(iproc, p, |iproc|)), perms[p])
    modifies w
    ensures forall k :: 0 <= k < iu - il + 1 ==> IsGathered(order, il, iproc, final, k, w[k])
    ensures forall k :: iu - il + 1 <= k < w.Length ==> w[k] == old(w[k])
  {
    var m: nat := iu - il + 1;
    var locals: seq<seq<real>>, nz: seq<nat>, myFirst: seq<nat> := [], [], [];
    var first := 0;
    for p := 0 to nproc
      invariant first == Assignment.Offset(m, nproc, p) && w[..] == old(w[..])
      invariant AreCompacted(final, zindex, iproc, m, nproc, locals, nz, myFirst, p)
    {
      AssignmentNumbers(order, il, iu, nproc, iproc, zindex, p);
      var local, im := CompactOne(final[p], windex[p], zindex, iproc, p, Assignment.Share(m, nproc, p), perms[p]);
      locals, nz, myFirst := locals + [local], nz + [im], myFirst + [first];
      first := first + im;
    }
    CompactedAreParts(final, zindex, iproc, m, nproc, locals, nz, myFirst);
    CommEigvals(locals, nz, myFirst, m, w);
    forall k | 0 <= k < m ensures IsGathered(order, il, iproc, final, k, w[k]) {
      CompactedGather(order, il, iu, nproc, iproc, zindex, final, locals, nz, myFirst, w[..], k);
    }
  }

  ghost predicate IsGathered(order: seq<nat>, il: nat, iproc: seq<int>, final: seq<seq<real>>, k: nat, v: real) {
    && 0 < il && il - 1 + k < |order| && order[il - 1 + k] < |iproc|
    && var i := order[il - 1 + k];
       0 <= iproc[i] < |final| && i < |final[iproc[i]]| && v == final[iproc[i]][i]
  }

  lemma CompactedAreParts(final: seq<seq<real>>, zindex: seq<int>, iproc: seq<int>, m: nat, nproc: nat,
                          locals: seq<seq<real>>, nz: seq<nat>, myFirst: seq<nat>)
    requires 0 < nproc == |final| && |zindex| == |iproc|
    requires AreCompacted(final, zindex, iproc, m, nproc, locals, nz, myFirst, nproc)
    ensures forall p :: 0 <= p < nproc ==> IsPart(locals, nz, myFirst, m, p)
  {
    forall p | 0 <= p < nproc ensures IsPart(locals, nz, myFirst, m, p) {
      assert IsCompacted(final[p], zindex, iproc, m, nproc, locals[p], nz[p], myFirst[p], p);
    }
  }

  lemma CompactedGather(order: seq<nat>, il: nat, iu: nat, nproc: nat, iproc: seq<int>, zindex: seq<int>,
                        final: seq<seq<real>>, locals: seq<seq<real>>, nz: seq<nat>, myFirst: seq<nat>,
                        w: seq<real>, k: nat)
    requires 0 < nproc == |final| && 1 <= il <= iu + 1 && iu <= |order| && k < iu - il + 1
    requires IsPermutation(order, |order|) && Assignment.IsAssigned(order, il, iu, nproc, iproc, zindex)
    requires AreCompacted(final, zindex, iproc, iu - il + 1, nproc, locals, nz, myFirst, nproc)
    requires forall p, t :: 0 <= p < nproc && 0 <= t < nz[p] ==> InPlace(locals, myFirst, w, p, t)
    ensures k < |w| && IsGathered(order, il, iproc, final, k, w[k])
  {
    CompactedAreParts(final, zindex, iproc, iu - il + 1, nproc, locals, nz, myFirst);
    forall p | 0 <= p < nproc ensures |final[p]| == |order| {
      assert IsCompacted(final[p], zindex, iproc, iu - il + 1, nproc, locals[p], nz[p], myFirst[p], p);
    }
    forall i | 0 <= i < |order| && 0 <= iproc[i] < nproc
      ensures 0 <= zindex[i] < |locals[iproc[i]]| && locals[iproc[i]][zindex[i]] == final[iproc[i]][i]
    {
      var p := iproc[i];
      assert IsCompacted(final[p], zindex, iproc, iu - il + 1, nproc, locals[p], nz[p], myFirst[p], p);
    }
    GatheredInOrder(order, il, iu, nproc, iproc, zindex, final, locals, nz, myFirst, w, k);
  }
}
