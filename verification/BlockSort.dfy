// Sorting the eigenvalues of a block together with their errors: the loop of
// plarre.c that swaps neighbours until a pass finds nothing to swap.
module BlockSort {
  import opened Permutations

  function CountBelow(x: real, s: seq<real>): nat {
    if s == [] then 0 else (if s[0] < x then 1 else 0) + CountBelow(x, s[1..])
  }

  // Pairs of places whose values are in the wrong order.
  function Inversions(s: seq<real>): nat {
    if s == [] then 0 else CountBelow(s[0], s[1..]) + Inversions(s[1..])
  }

  function Swapped<T>(s: seq<T>, k: nat): (r: seq<T>)
    requires k + 1 < |s|
    ensures |r| == |s|
  {
    s[k := s[k+1]][k+1 := s[k]]
  }

  lemma {:induction false} SwapKeepsCount(x: real, s: seq<real>, k: nat)
    requires k + 1 < |s|
    ensures CountBelow(x, Swapped(s, k)) == CountBelow(x, s)
  {
    var r := Swapped(s, k);
    if k == 0 {
      assert r[1..][1..] == s[1..][1..];
    } else {
      assert r[1..] == Swapped(s[1..], k - 1);
      SwapKeepsCount(x, s[1..], k - 1);
    }
  }

  // Swapping two neighbours in the wrong order removes exactly one inversion.
  lemma {:induction false} SwapRemovesInversion(s: seq<real>, k: nat)
    requires k + 1 < |s| && s[k+1] < s[k]
    ensures Inversions(Swapped(s, k)) == Inversions(s) - 1
  {
    var r := Swapped(s, k);
    if k == 0 {
      assert r[1..][1..] == s[1..][1..];
      assert CountBelow(s[0], s[1..]) == 1 + CountBelow(s[0], s[2..]);
      assert s[1..][1..] == s[2..] && r[1..][1..] == r[2..] == s[2..];
      assert CountBelow(r[0], r[1..]) == CountBelow(s[1], s[2..]);
    } else {
      assert r[1..] == Swapped(s[1..], k - 1);
      SwapKeepsCount(s[0], s[1..], k - 1);
      SwapRemovesInversion(s[1..], k - 1);
    }
  }

  lemma SwapKeepsPermutation(perm: seq<nat>, n: nat, k: nat)
    requires IsPermutation(perm, n) && k + 1 < n
    ensures IsPermutation(Swapped(perm, k), n)
  {
    var r := Swapped(perm, k);
    forall i | 0 <= i < n ensures Hits(r, i) {
      assert Hits(perm, i);
      var j :| 0 <= j < n && perm[j] == i;
      assert r[if j == k then k + 1 else if j == k + 1 then k else j] == i;
    }
  }

  // now is `was` rearranged by perm.
  ghost predicate Rearranged(was: seq<real>, now: seq<real>, perm: seq<nat>) {
    && |was| == |now| && IsPermutation(perm, |was|)
    && forall j :: 0 <= j < |was| ==> now[j] == was[perm[j]]
  }

  // Equal values have kept their order.
  ghost predicate Stable(now: seq<real>, perm: seq<nat>)
    requires |now| == |perm|
  {
    forall j, k :: 0 <= j < k < |now| && now[j] == now[k] ==> perm[j] < perm[k]
  }

  predicate Ascends(s: seq<real>, from: nat, to: nat)
    requires to <= |s|
  {
    forall j :: from < j < to ==> Ascent(s, j)
  }

  predicate Ascent(s: seq<real>, j: int)
    requires 0 < j < |s|
  {
    s[j-1] <= s[j]
  }

  lemma {:induction false} AscendsIsSorted(s: seq<real>, i: nat, j: nat)
    requires Ascends(s, 0, |s|) && i <= j < |s|
    ensures s[i] <= s[j]
    decreases j
  {
    if i == j {
    } else {
      AscendsIsSorted(s, i, j - 1);
      assert Ascent(s, j);
    }
  }

  function Segment<T>(s: seq<T>, first: nat, last: nat): seq<T>
    requires first <= last < |s|
  {
    s[first..last+1]
  }

  // The arrays (w, werr) come from (w0, werr0) by rearranging the block with perm.
  ghost predicate IsPartSorted(w0: seq<real>, w: seq<real>, first: nat, last: nat, perm: seq<nat>) {
    && first <= last < |w| == |w0|
    && w[..first] == w0[..first] && w[last+1..] == w0[last+1..]
    && Rearranged(Segment(w0, first, last), Segment(w, first, last), perm)
  }

  ghost predicate IsSortState(w0: seq<real>, werr0: seq<real>, w: seq<real>, werr: seq<real>,
                              first: nat, last: nat, perm: seq<nat>)
  {
    && IsPartSorted(w0, w, first, last, perm) && IsPartSorted(werr0, werr, first, last, perm) && |w| == |werr|
    && Stable(Segment(w, first, last), perm)
  }

  lemma SegmentOfSwap<T>(s: seq<T>, first: nat, last: nat, j: nat)
    requires first <= j < last < |s|
    ensures Segment(Swapped(s, j), first, last) == Swapped(Segment(s, first, last), j - first)
    ensures Swapped(s, j)[..first] == s[..first] && Swapped(s, j)[last+1..] == s[last+1..]
  {
  }

  lemma SwapKeepsRearranged(was: seq<real>, now: seq<real>, perm: seq<nat>, k: nat)
    requires Rearranged(was, now, perm) && k + 1 < |now|
    ensures Rearranged(was, Swapped(now, k), Swapped(perm, k))
  {
    SwapKeepsPermutation(perm, |perm|, k);
  }

  lemma SwapKeepsStable(now: seq<real>, perm: seq<nat>, k: nat)
    requires |now| == |perm| && Stable(now, perm) && k + 1 < |now| && now[k+1] < now[k]
    ensures Stable(Swapped(now, k), Swapped(perm, k))
  {
  }

  lemma SwapKeepsPart(w0: seq<real>, w: seq<real>, first: nat, last: nat, perm: seq<nat>, j: nat)
    requires IsPartSorted(w0, w, first, last, perm) && first <= j < last
    ensures IsPartSorted(w0, Swapped(w, j), first, last, Swapped(perm, j - first))
  {
    SegmentOfSwap(w, first, last, j);
    SwapKeepsRearranged(Segment(w0, first, last), Segment(w, first, last), perm, j - first);
  }

  lemma SwapKeepsSortState(w0: seq<real>, werr0: seq<real>, w: seq<real>, werr: seq<real>,
                           first: nat, last: nat, perm: seq<nat>, j: nat)
    requires IsSortState(w0, werr0, w, werr, first, last, perm)
    requires first <= j < last && w[j+1] < w[j]
    ensures IsSortState(w0, werr0, Swapped(w, j), Swapped(werr, j), first, last, Swapped(perm, j - first))
    ensures Inversions(Segment(Swapped(w, j), first, last)) < Inversions(Segment(w, first, last))
  {
    SegmentOfSwap(w, first, last, j);
    SwapKeepsPart(w0, w, first, last, perm, j);
    SwapKeepsPart(werr0, werr, first, last, perm, j);
    SwapRemovesInversion(Segment(w, first, last), j - first);
    SwapKeepsStable(Segment(w, first, last), perm, j - first);
  }

  lemma IdentityStarts(w: seq<real>, werr: seq<real>, first: nat, last: nat, perm: seq<nat>)
    requires first <= last < |w| == |werr|
    requires perm == seq(last + 1 - first, i => i)
    ensures IsSortState(w, werr, w, werr, first, last, perm)
  {
    forall i | 0 <= i < |perm| ensures Hits(perm, i) {
      assert perm[i] == i;
    }
  }

  lemma ExtendAscends(s: seq<real>, k: nat)
    requires k + 1 < |s| && Ascends(s, 0, k + 1) && s[k] <= s[k+1]
    ensures Ascends(s, 0, k + 2)
  {
    forall j | 0 < j < k + 2 ensures Ascent(s, j) {
      assert j < k + 1 ==> Ascent(s, j);
    }
  }

  lemma NextAscends(w: seq<real>, first: nat, last: nat, j: nat)
    requires first <= j < last < |w| && Ascends(Segment(w, first, last), 0, j - first + 1) && w[j] <= w[j+1]
    ensures Ascends(Segment(w, first, last), 0, j - first + 2)
  {
    ExtendAscends(Segment(w, first, last), j - first);
  }

  method SortBlock(w: array<real>, werr: array<real>, blBegin: nat, blEnd: nat) returns (ghost perm: seq<nat>)
    requires blBegin <= blEnd < w.Length == werr.Length && w != werr
    modifies w, werr
    ensures forall i, j :: blBegin <= i <= j <= blEnd ==> w[i] <= w[j]
    ensures IsSortState(old(w[..]), old(werr[..]), w[..], werr[..], blBegin, blEnd, perm)
  {
    ghost var n := blEnd + 1 - blBegin;
    perm := seq(n, i => i);
    IdentityStarts(w[..], werr[..], blBegin, blEnd, perm);
    var sorted := false;
    while !sorted
      invariant IsSortState(old(w[..]), old(werr[..]), w[..], werr[..], blBegin, blEnd, perm)
      invariant sorted ==> Ascends(Segment(w[..], blBegin, blEnd), 0, n)
      decreases Inversions(Segment(w[..], blBegin, blEnd)), !sorted
    {
      sorted, perm := OnePass(w, werr, blBegin, blEnd, perm, old(w[..]), old(werr[..]));
    }
    SegmentIsSorted(w[..], blBegin, blEnd);
  }

  lemma SegmentIsSorted(s: seq<real>, first: nat, last: nat)
    requires first <= last < |s| && Ascends(Segment(s, first, last), 0, last + 1 - first)
    ensures forall i, j :: first <= i <= j <= last ==> s[i] <= s[j]
  {
    forall i, j | first <= i <= j <= last ensures s[i] <= s[j] {
      AscendsIsSorted(Segment(s, first, last), i - first, j - first);
    }
  }

  // One pass over the block; it either swaps, and leaves fewer inversions, or
  // finds the block sorted.
  method OnePass(w: array<real>, werr: array<real>, blBegin: nat, blEnd: nat,
                 ghost perm0: seq<nat>, ghost w0: seq<real>, ghost werr0: seq<real>)
    returns (sorted: bool, ghost perm: seq<nat>)
    requires blBegin <= blEnd < w.Length == werr.Length && w != werr
    requires IsSortState(w0, werr0, w[..], werr[..], blBegin, blEnd, perm0)
    modifies w, werr
    ensures IsSortState(w0, werr0, w[..], werr[..], blBegin, blEnd, perm)
    ensures sorted ==> Ascends(Segment(w[..], blBegin, blEnd), 0, blEnd + 1 - blBegin)
    ensures sorted ==> Inversions(Segment(w[..], blBegin, blEnd)) == old(Inversions(Segment(w[..], blBegin, blEnd)))
    ensures !sorted ==> Inversions(Segment(w[..], blBegin, blEnd)) < old(Inversions(Segment(w[..], blBegin, blEnd)))
  {
    sorted, perm := true, perm0;
    ghost var before := Inversions(Segment(w[..], blBegin, blEnd));
    for j := blBegin to blEnd
      invariant IsSortState(w0, werr0, w[..], werr[..], blBegin, blEnd, perm)
      invariant sorted ==> Ascends(Segment(w[..], blBegin, blEnd), 0, j - blBegin + 1)
      invariant sorted ==> Inversions(Segment(w[..], blBegin, blEnd)) == before
      invariant !sorted ==> Inversions(Segment(w[..], blBegin, blEnd)) < before
    {
      if w[j+1] < w[j] {
        sorted := false;
        SwapKeepsSortState(w0, werr0, w[..], werr[..], blBegin, blEnd, perm, j);
        perm := Swapped(perm, j - blBegin);
        Swap(w, j);
        Swap(werr, j);
      } else {
        if sorted {
          NextAscends(w[..], blBegin, blEnd, j);
        }
      }
    }
  }

  method Swap(a: array<real>, j: nat)
    requires j + 1 < a.Length
    modifies a
    ensures a[..] == Swapped(old(a[..]), j)
  {
    var tmp := a[j];
    a[j] := a[j+1];
    a[j+1] := tmp;
  }
}
