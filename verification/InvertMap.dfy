// Inverting a map: sequentially, and on all processes at once. DistMap.cpp.
module InvertMap {
  import opened Blocks
  import opened DistIndexMap
  import opened Integers
  import opened Permutations

  ghost predicate IsInverse(m: seq<int>, inverse: seq<int>) {
    |inverse| == |m| && forall i :: 0 <= i < |m| ==> IsUndone(m, inverse, i)
  }

  predicate IsUndone(m: seq<int>, inverse: seq<int>, i: int)
    requires 0 <= i < |m|
  {
    0 <= m[i] < |inverse| && inverse[m[i]] == i
  }

  // The sequential InvertMap.
  method InvertMap(m: seq<int>) returns (inverseMap: seq<int>)
    requires IsPermutation(m, |m|)
    ensures IsInverse(m, inverseMap)
  {
    var n := |m|;
    var a := new int[n](i => 0);
    for i := 0 to n
      invariant forall j :: 0 <= j < i ==> a[m[j]] == j
    {
      forall j | 0 <= j < i ensures m[j] != m[i] {
        assert m[j] != m[i];
      }
      a[m[i]] := i;
    }
    inverseMap := a[..];
  }

  lemma InverseIsUnique(m: seq<int>, a: seq<int>, b: seq<int>)
    requires IsPermutation(m, |m|) && IsInverse(m, a) && IsInverse(m, b)
    ensures a == b
  {
    forall k | 0 <= k < |m| ensures a[k] == b[k] {
      assert Hits(m, k);
      var i :| 0 <= i < |m| && m[i] == k;
      assert IsUndone(m, a, i) && IsUndone(m, b, i);
    }
  }

  // The pair that a process sends for one of its sources: the source and its image.
  datatype Pair = Pair(orig: int, mapped: int)

  // The pairs of a process, as the packing loop forms them.
  function PairsOf(piece: seq<int>, firstLocalSource: nat): (ps: seq<Pair>)
    ensures |ps| == |piece|
  {
    seq(|piece|, s requires 0 <= s < |piece| => Pair(s + firstLocalSource, piece[s]))
  }

  function OwnersOf(piece: seq<int>, blocksize: nat): (os: seq<int>)
    requires 0 < blocksize
    ensures |os| == |piece|
  {
    seq(|piece|, s requires 0 <= s < |piece| => RowOwner(piece[s], blocksize))
  }

  function AllPairs(pieces: seq<seq<int>>, b: nat): (ps: seq<seq<Pair>>)
    ensures |ps| == |pieces| && forall p :: 0 <= p < |ps| ==> ps[p] == PairsOf(pieces[p], b * p)
  {
    seq(|pieces|, p requires 0 <= p < |pieces| => PairsOf(pieces[p], b * p))
  }

  function AllOwners(pieces: seq<seq<int>>, b: nat): (os: seq<seq<int>>)
    requires 0 < b
    ensures |os| == |pieces| && forall p :: 0 <= p < |os| ==> os[p] == OwnersOf(pieces[p], b)
  {
    seq(|pieces|, p requires 0 <= p < |pieces| => OwnersOf(pieces[p], b))
  }

  lemma FirstOfPiece(numSources: nat, b: nat, pieces: seq<seq<int>>, p: nat)
    requires IsDistributed(numSources, b, pieces) && p < |pieces|
    ensures pieces[p] == [] || Start(pieces, p) == b * p
  {
    PieceStart(numSources, b, pieces, p);
  }

  // Taken together the processes hold the pairs of the global map.
  lemma {:induction false} PairsConcat(numSources: nat, b: nat, pieces: seq<seq<int>>, n: nat)
    requires IsDistributed(numSources, b, pieces) && n <= |pieces|
    ensures Concat(AllPairs(pieces, b)[..n]) == PairsOf(Concat(pieces[..n]), 0)
    decreases n
  {
    if n == 0 {
    } else {
      PairsConcat(numSources, b, pieces, n - 1);
      ConcatNext(pieces, n - 1);
      ConcatNext(AllPairs(pieces, b), n - 1);
      FirstOfPiece(numSources, b, pieces, n - 1);
      PairsAppend(Concat(pieces[..n-1]), pieces[n-1], b * (n - 1));
    }
  }

  lemma PairsAppend(front: seq<int>, piece: seq<int>, first: nat)
    requires piece == [] || first == |front|
    ensures PairsOf(front + piece, 0) == PairsOf(front, 0) + PairsOf(piece, first)
  {
  }

  lemma {:induction false} OwnersConcat(b: nat, pieces: seq<seq<int>>, n: nat)
    requires 0 < b && n <= |pieces|
    ensures Concat(AllOwners(pieces, b)[..n]) == OwnersOf(Concat(pieces[..n]), b)
    decreases n
  {
    if n == 0 {
    } else {
      OwnersConcat(b, pieces, n - 1);
      ConcatNext(pieces, n - 1);
      ConcatNext(AllOwners(pieces, b), n - 1);
      OwnersAppend(Concat(pieces[..n-1]), pieces[n-1], b);
    }
  }

  lemma OwnersAppend(front: seq<int>, piece: seq<int>, b: nat)
    requires 0 < b
    ensures OwnersOf(front + piece, b) == OwnersOf(front, b) + OwnersOf(piece, b)
  {
  }

  // The pairs of the global map whose image process r owns.
  ghost function PairsFor(m: seq<int>, b: nat, r: nat): seq<Pair>
    requires 0 < b
  {
    Select(PairsOf(m, 0), OwnersOf(m, b), r)
  }

  // They are what process r receives.
  lemma ReceivedPairs(numSources: nat, b: nat, pieces: seq<seq<int>>, recvs: seq<Pair>, r: nat)
    requires IsDistributed(numSources, b, pieces)
    requires AreMatched(AllPairs(pieces, b), AllOwners(pieces, b))
    requires IsDelivered(AllPairs(pieces, b), AllOwners(pieces, b), recvs, r)
    ensures recvs == PairsFor(Concat(pieces), b, r)
  {
    var ps, os := AllPairs(pieces, b), AllOwners(pieces, b);
    PairsConcat(numSources, b, pieces, |pieces|);
    OwnersConcat(b, pieces, |pieces|);
    assert pieces[..|pieces|] == pieces && ps[..|pieces|] == ps && os[..|pieces|] == os;
    SelectConcat(ps, os, Incoming(ps, os, r), r);
  }

  // A pair names a source and its image, an image in the block from first on.
  ghost predicate IsRightPair(m: seq<int>, first: nat, localSize: nat, pair: Pair) {
    && 0 <= pair.orig < |m| && m[pair.orig] == pair.mapped
    && 0 <= pair.mapped - first < localSize
  }

  lemma PairIsRight(m: seq<int>, b: nat, r: nat, k: nat)
    requires IsPermutation(m, |m|) && 0 < b && k < |PairsFor(m, b, r)|
    ensures IsRightPair(m, b * r, LocalSize(|m|, b, r), PairsFor(m, b, r)[k])
  {
    var i := SelectedIsItem(PairsOf(m, 0), OwnersOf(m, b), r, k);
    OwnerIffInBlock(m[i], |m|, b, r);
  }

  // The source i is named among the pairs of the owner of its image.
  lemma SourceIsNamed(m: seq<int>, b: nat, i: nat, r: nat) returns (k: nat)
    requires IsPermutation(m, |m|) && 0 < b && i < |m| && OwnersOf(m, b)[i] == r
    ensures k < |PairsFor(m, b, r)| && PairsFor(m, b, r)[k] == Pair(i, m[i])
  {
    var ps, os := PairsOf(m, 0), OwnersOf(m, b);
    SelectAt(ps, os, i);
    k := |Select(ps[..i], os[..i], os[i])|;
  }

  // A process receives as many pairs as it has sources.
  lemma PairCount(m: seq<int>, b: nat, r: nat)
    requires IsPermutation(m, |m|) && 0 < b
    ensures |PairsFor(m, b, r)| == LocalSize(|m|, b, r)
  {
    var os := OwnersOf(m, b);
    SelectCount(PairsOf(m, 0), os, r);
    var lo := Min(b * r, |m|);
    var hi := Min(b * r + b, |m|);
    forall s ensures s in SentTo(os, r) <==> s in MappedInto(m, lo, hi) {
      if 0 <= s < |m| {
        OwnerIffInBlock(m[s], |m|, b, r);
      }
    }
    assert SentTo(os, r) == MappedInto(m, lo, hi);
    CountMappedInto(m, lo, hi);
  }

  ghost function MappedInto(m: seq<int>, lo: nat, hi: nat): set<int> {
    set s | 0 <= s < |m| && lo <= m[s] < hi
  }

  lemma {:induction false} CountMappedInto(m: seq<int>, lo: nat, hi: nat)
    requires IsPermutation(m, |m|) && lo <= hi <= |m|
    ensures |MappedInto(m, lo, hi)| == hi - lo
    decreases hi
  {
    if lo == hi {
      assert MappedInto(m, lo, hi) == {};
    } else {
      CountMappedInto(m, lo, hi - 1);
      assert Hits(m, hi - 1);
      var i :| 0 <= i < |m| && m[i] == hi - 1;
      forall s | 0 <= s < |m| && m[s] == hi - 1 ensures s == i {
        SameImageSamePlace(m, i, s);
      }
      assert MappedInto(m, lo, hi) == MappedInto(m, lo, hi - 1) + {i};
    }
  }

  // The images in the block from first on are undone.
  ghost predicate IsPlaced(part: seq<int>, first: nat, pair: Pair) {
    0 <= pair.mapped - first < |part| && part[pair.mapped - first] == pair.orig
  }

  // A process writes the pairs it has received into its part of the inverse.
  method FormInverse(recvs: seq<Pair>, invMapBuf: array<int>, firstLocalSource: nat, ghost m: seq<int>)
    requires IsPermutation(m, |m|)
    requires forall k :: 0 <= k < |recvs| ==> IsRightPair(m, firstLocalSource, invMapBuf.Length, recvs[k])
    modifies invMapBuf
    ensures forall k :: 0 <= k < |recvs| ==> IsPlaced(invMapBuf[..], firstLocalSource, recvs[k])
  {
    for s := 0 to |recvs|
      invariant forall k :: 0 <= k < s ==> IsPlaced(invMapBuf[..], firstLocalSource, recvs[k])
    {
      assert IsRightPair(m, firstLocalSource, invMapBuf.Length, recvs[s]);
      ghost var before := invMapBuf[..];
      invMapBuf[recvs[s].mapped - firstLocalSource] := recvs[s].orig;
      var s1 := s + 1;
      forall k | 0 <= k < s1 ensures IsPlaced(invMapBuf[..], firstLocalSource, recvs[k]) {
        if k < s {
          assert IsPlaced(before, firstLocalSource, recvs[k]);
          PairsDoNotClash(m, firstLocalSource, invMapBuf.Length, recvs[k], recvs[s]);
        }
      }
    }
  }

  lemma PairsDoNotClash(m: seq<int>, first: nat, localSize: nat, p: Pair, q: Pair)
    requires IsPermutation(m, |m|) && IsRightPair(m, first, localSize, p) && IsRightPair(m, first, localSize, q)
    ensures p.mapped == q.mapped ==> p == q
  {
    if p.mapped == q.mapped {
      SameImageSamePlace(m, p.orig, q.orig);
    }
  }

  // Every image that process r owns is undone by its part of the inverse.
  ghost predicate IsPartOfInverse(m: seq<int>, b: nat, r: nat, part: seq<int>)
    requires 0 < b
  {
    forall k :: 0 <= k < |PairsFor(m, b, r)| ==> IsPlaced(part, b * r, PairsFor(m, b, r)[k])
  }

  // Process r inverts what it has received; it returns the number of integers.
  method InvertPart(ghost pieces: seq<seq<int>>, numSources: nat, b: nat, r: nat, recvs: seq<Pair>)
    returns (part: seq<int>, numRecvs: nat)
    requires IsDistributed(numSources, b, pieces) && IsPermutation(Concat(pieces), numSources) && r < |pieces|
    requires recvs == PairsFor(Concat(pieces), b, r)
    ensures |part| == LocalSize(numSources, b, r) && numRecvs == 2 * |part|
    ensures IsPartOfInverse(Concat(pieces), b, r, part)
  {
    ghost var m := Concat(pieces);
    PairCount(m, b, r);
    forall k | 0 <= k < |recvs| ensures IsRightPair(m, b * r, LocalSize(numSources, b, r), recvs[k]) {
      PairIsRight(m, b, r, k);
    }
    var invMapBuf := new int[LocalSize(numSources, b, r)](i => 0);
    FormInverse(recvs, invMapBuf, b * r, m);
    part := invMapBuf[..];
    numRecvs := 2 * |recvs|;
  }

  // InvertMap on all processes: the parts together are the inverse of the global
  // map, and each process receives two integers for each of its sources.
  method InvertAll(pieces: seq<seq<int>>, numSources: nat, b: nat) returns (inverse: seq<seq<int>>, numRecvs: seq<nat>)
    requires IsDistributed(numSources, b, pieces) && IsPermutation(Concat(pieces), numSources)
    ensures |inverse| == |pieces| && IsDistributed(numSources, b, inverse)
    ensures IsInverse(Concat(pieces), Concat(inverse))
    ensures |numRecvs| == |pieces| && forall r :: 0 <= r < |pieces| ==> numRecvs[r] == 2 * |pieces[r]|
  {
    PairsAreAddressed(numSources, b, pieces);
    var recvs, parcels := SendAll(AllPairs(pieces, b), AllOwners(pieces, b));
    AllReceivedPairs(numSources, b, pieces, recvs);
    inverse, numRecvs := InvertParts(pieces, numSources, b, recvs);
    PartsMakeInverse(numSources, b, pieces, inverse);
  }

  lemma AllReceivedPairs(numSources: nat, b: nat, pieces: seq<seq<int>>, recvs: seq<seq<Pair>>)
    requires IsDistributed(numSources, b, pieces) && |recvs| == |pieces|
    requires AreMatched(AllPairs(pieces, b), AllOwners(pieces, b))
    requires forall r :: 0 <= r < |pieces| ==> IsDelivered(AllPairs(pieces, b), AllOwners(pieces, b), recvs[r], r)
    ensures forall r :: 0 <= r < |pieces| ==> recvs[r] == PairsFor(Concat(pieces), b, r)
  {
    forall r | 0 <= r < |pieces| ensures recvs[r] == PairsFor(Concat(pieces), b, r) {
      ReceivedPairs(numSources, b, pieces, recvs[r], r);
    }
  }

  method InvertParts(ghost pieces: seq<seq<int>>, numSources: nat, b: nat, recvs: seq<seq<Pair>>)
    returns (inverse: seq<seq<int>>, numRecvs: seq<nat>)
    requires IsDistributed(numSources, b, pieces) && IsPermutation(Concat(pieces), numSources)
    requires |recvs| == |pieces| && forall r :: 0 <= r < |pieces| ==> recvs[r] == PairsFor(Concat(pieces), b, r)
    ensures |inverse| == |numRecvs| == |pieces|
    ensures forall r :: 0 <= r < |pieces| ==>
        |inverse[r]| == LocalSize(numSources, b, r) && numRecvs[r] == 2 * |inverse[r]|
    ensures forall r :: 0 <= r < |pieces| ==> IsPartOfInverse(Concat(pieces), b, r, inverse[r])
  {
    inverse, numRecvs := [], [];
    for r := 0 to |recvs|
      invariant |inverse| == |numRecvs| == r
      invariant forall q :: 0 <= q < r ==>
          |inverse[q]| == LocalSize(numSources, b, q) && numRecvs[q] == 2 * |inverse[q]|
      invariant forall q :: 0 <= q < r ==> IsPartOfInverse(Concat(pieces), b, q, inverse[q])
    {
      var part, count := InvertPart(pieces, numSources, b, r, recvs[r]);
      inverse, numRecvs := inverse + [part], numRecvs + [count];
    }
  }

  lemma PairsAreAddressed(numSources: nat, b: nat, pieces: seq<seq<int>>)
    requires IsDistributed(numSources, b, pieces) && IsPermutation(Concat(pieces), numSources)
    ensures AreAddressed(AllPairs(pieces, b), AllOwners(pieces, b))
  {
    forall p | 0 <= p < |pieces| ensures IsAddressed(AllPairs(pieces, b)[p], AllOwners(pieces, b)[p], |pieces|) {
      PieceOwnersAreProcesses(numSources, b, pieces, p);
    }
  }

  lemma PieceOwnersAreProcesses(numSources: nat, b: nat, pieces: seq<seq<int>>, p: nat)
    requires IsDistributed(numSources, b, pieces) && IsPermutation(Concat(pieces), numSources) && p < |pieces|
    ensures forall s :: 0 <= s < |pieces[p]| ==> 0 <= OwnersOf(pieces[p], b)[s] < |pieces|
  {
    forall s | 0 <= s < |pieces[p]| ensures 0 <= OwnersOf(pieces[p], b)[s] < |pieces| {
      PieceEntry(pieces, p, s);
      OwnerIsProcess(pieces[p][s], numSources, b, |pieces|);
    }
  }

  // Entry s of piece p is entry Start(pieces, p) + s of the global map.
  lemma PieceEntry(pieces: seq<seq<int>>, p: nat, s: nat)
    requires p < |pieces| && s < |pieces[p]|
    ensures Start(pieces, p) + s < |Concat(pieces)| && pieces[p][s] == Concat(pieces)[Start(pieces, p) + s]
  {
    BlockInConcat(pieces, p);
    SliceAt(Concat(pieces), Start(pieces, p), pieces[p], s);
  }

  lemma PartsMakeInverse(numSources: nat, b: nat, pieces: seq<seq<int>>, inverse: seq<seq<int>>)
    requires IsDistributed(numSources, b, pieces) && IsPermutation(Concat(pieces), numSources)
    requires |inverse| == |pieces| && forall q :: 0 <= q < |pieces| ==> |inverse[q]| == |pieces[q]|
    requires forall q :: 0 <= q < |pieces| ==> IsPartOfInverse(Concat(pieces), b, q, inverse[q])
    ensures IsDistributed(numSources, b, inverse) && IsInverse(Concat(pieces), Concat(inverse))
  {
    var m := Concat(pieces);
    PiecesTile(numSources, b, inverse);
    forall i | 0 <= i < |m| ensures IsUndone(m, Concat(inverse), i) {
      ImageIsUndone(numSources, b, m, inverse, i);
    }
  }

  lemma ImageIsUndone(numSources: nat, b: nat, m: seq<int>, inverse: seq<seq<int>>, i: nat)
    requires IsDistributed(numSources, b, inverse) && IsPermutation(m, numSources) && i < |m|
    requires forall q :: 0 <= q < |inverse| ==> IsPartOfInverse(m, b, q, inverse[q])
    ensures IsUndone(m, Concat(inverse), i)
  {
    SourceIsLocal(numSources, b, inverse, m[i]);
    var r := OwnerOf(m[i], numSources, b);
    PlacedIsUndone(m, b, r, inverse[r], i, Concat(inverse));
  }

  lemma PlacedIsUndone(m: seq<int>, b: nat, r: nat, part: seq<int>, i: nat, inverse: seq<int>)
    requires IsPermutation(m, |m|) && i < |m| && 0 < b && OwnersOf(m, b)[i] == r
    requires IsPartOfInverse(m, b, r, part) && IsLocal(m[i], part, b, r, inverse)
    ensures IsUndone(m, inverse, i)
  {
    var k := SourceIsNamed(m, b, i, r);
    var first := b * r;
    assert IsPlaced(part, first, PairsFor(m, b, r)[k]);
  }

  // Translating a map through its inverse gives every source back.
  lemma TranslatedMapIsIdentity(m: seq<int>, inverse: seq<int>)
    requires IsInverse(m, inverse)
    ensures Translated(inverse, m) == seq(|m|, i => i)
  {
    forall i | 0 <= i < |m| ensures Image(inverse, m[i]) == i {
      assert IsUndone(m, inverse, i);
    }
  }

  lemma PiecesAreNatural(pieces: seq<seq<int>>, numSources: nat)
    requires IsPermutation(Concat(pieces), numSources)
    ensures forall p :: 0 <= p < |pieces| ==> IsNatural(pieces[p])
  {
    forall p, s | 0 <= p < |pieces| && 0 <= s < |pieces[p]| ensures 0 <= pieces[p][s] {
      PieceEntry(pieces, p, s);
    }
  }
}
