// The DistMap objects of all processes, and the collective operations on them.
module DistMaps {
  import opened Blocks
  import opened DistIndexMap
  import Invert = InvertMap
  import opened Permutations

  // The local part of a map on one process.
  class DistMap {
    var numSources: nat
    var blocksize: nat
    var localMap: seq<int>
    const commSize: nat
    const commRank: nat

    ghost predicate Valid()
      reads this
    {
      && commRank < commSize
      && blocksize == BlocksizeFor(numSources, commSize)
      && |localMap| == LocalSize(numSources, blocksize, commRank)
    }

    constructor (numSources: nat, commSize: nat, commRank: nat)
      requires commRank < commSize
      ensures Valid() && this.numSources == numSources && this.commSize == commSize && this.commRank == commRank
      ensures |localMap| > 0 ==> (|localMap| - 1) * commSize < numSources
    {
      this.numSources := numSources;
      this.commSize := commSize;
      this.commRank := commRank;
      blocksize := BlocksizeFor(numSources, commSize);
      localMap := seq(LocalSize(numSources, BlocksizeFor(numSources, commSize), commRank), i => 0);
      PartsAreEven(numSources, commSize, commRank);
    }

    // vector::resize keeps what fits and fills the rest with zeros.
    method Resize(numSources: nat)
      requires Valid()
      modifies this
      ensures Valid() && this.numSources == numSources
      ensures |localMap| > 0 ==> (|localMap| - 1) * commSize < numSources
      ensures forall i :: 0 <= i < |localMap| ==> localMap[i] == if i < |old(localMap)| then old(localMap)[i] else 0
    {
      this.numSources := numSources;
      blocksize := BlocksizeFor(numSources, commSize);
      var n := LocalSize(numSources, blocksize, commRank);
      var m := localMap;
      localMap := seq(n, i requires 0 <= i < n => if i < |m| then m[i] else 0);
      PartsAreEven(numSources, commSize, commRank);
    }
  }

  // One map, distributed over the processes: maps[r] is the object of process r.
  ghost predicate AreParts(maps: seq<DistMap>, numSources: nat)
    reads maps
  {
    && 0 < |maps|
    && forall r :: 0 <= r < |maps| ==> IsPart(maps, numSources, r)
  }

  ghost predicate IsPart(maps: seq<DistMap>, numSources: nat, r: nat)
    requires r < |maps|
    reads maps
  {
    && maps[r].commSize == |maps| && maps[r].commRank == r && maps[r].numSources == numSources
    && maps[r].blocksize == BlocksizeFor(numSources, |maps|)
    && |maps[r].localMap| == LocalSize(numSources, BlocksizeFor(numSources, |maps|), r)
  }

  function LocalMaps(maps: seq<DistMap>): (pieces: seq<seq<int>>)
    reads maps
    ensures |pieces| == |maps| && forall r :: 0 <= r < |maps| ==> pieces[r] == maps[r].localMap
  {
    seq(|maps|, r requires 0 <= r < |maps| reads maps => maps[r].localMap)
  }

  lemma PartsAreDistributed(maps: seq<DistMap>, numSources: nat)
    requires AreParts(maps, numSources)
    ensures IsDistributed(numSources, BlocksizeFor(numSources, |maps|), LocalMaps(maps))
  {
    BlocksCover(numSources, |maps|);
    forall r | 0 <= r < |maps|
      ensures |LocalMaps(maps)[r]| == LocalSize(numSources, BlocksizeFor(numSources, |maps|), r)
    {
      assert IsPart(maps, numSources, r);
    }
  }

  // Writing new local maps of the same sizes.
  method SetAll(maps: seq<DistMap>, ghost numSources: nat, pieces: seq<seq<int>>)
    requires AreParts(maps, numSources) && |pieces| == |maps|
    requires forall r :: 0 <= r < |maps| ==> |pieces[r]| == |maps[r].localMap|
    modifies maps
    ensures AreParts(maps, numSources) && LocalMaps(maps) == pieces
  {
    for r := 0 to |maps|
      invariant AreParts(maps, numSources)
      invariant forall q :: 0 <= q < |maps| ==> |pieces[q]| == |maps[q].localMap|
      invariant forall q :: 0 <= q < r ==> maps[q].localMap == pieces[q]
    {
      forall q | 0 <= q < |maps| && q != r ensures maps[q] != maps[r] {
        assert IsPart(maps, numSources, q) && IsPart(maps, numSources, r);
      }
      forall q | 0 <= q < |maps| ensures IsPart(maps, numSources, q) {
      }
      maps[r].localMap := pieces[r];
      forall q | 0 <= q < |maps| ensures IsPart(maps, numSources, q) {
      }
    }
  }

  // The objects of all processes on one grid, whatever map they hold.
  ghost predicate AreOnGrid(maps: seq<DistMap>)
    reads maps
  {
    0 < |maps| && forall r :: 0 <= r < |maps| ==> IsOnGrid(maps, r)
  }

  ghost predicate IsOnGrid(maps: seq<DistMap>, r: nat)
    requires r < |maps|
    reads maps
  {
    maps[r].Valid() && maps[r].commSize == |maps| && maps[r].commRank == r
  }

  lemma ValidIsPart(maps: seq<DistMap>, numSources: nat, r: nat)
    requires r < |maps| && IsOnGrid(maps, r) && maps[r].numSources == numSources
    ensures IsPart(maps, numSources, r)
  {
  }

  method ResizeAll(maps: seq<DistMap>, numSources: nat)
    requires AreOnGrid(maps)
    modifies maps
    ensures AreParts(maps, numSources)
  {
    for r := 0 to |maps|
      invariant forall q :: r <= q < |maps| ==> IsOnGrid(maps, q)
      invariant forall q :: 0 <= q < r ==> IsPart(maps, numSources, q)
    {
      assert IsOnGrid(maps, r);
      forall q | 0 <= q < |maps| && q != r ensures maps[q] != maps[r] {
        if q < r {
          assert IsPart(maps, numSources, q);
        } else {
          assert IsOnGrid(maps, q);
        }
      }
      label Before:
      maps[r].Resize(numSources);
      ValidIsPart(maps, numSources, r);
      forall q | r < q < |maps| ensures IsOnGrid(maps, q) {
        assert old@Before(IsOnGrid(maps, q));
      }
      forall q | 0 <= q < r ensures IsPart(maps, numSources, q) {
        assert old@Before(IsPart(maps, numSources, q));
      }
    }
  }

  // Extend: the first map is followed by this one, in place. The two may be the
  // same objects.
  method Extend(maps: seq<DistMap>, numSources: nat, firstMaps: seq<DistMap>, ghost firstSources: nat)
    requires AreParts(maps, numSources) && AreParts(firstMaps, firstSources) && |firstMaps| == |maps|
    requires forall p :: 0 <= p < |firstMaps| ==> IsNatural(firstMaps[p].localMap)
    modifies firstMaps
    ensures AreParts(firstMaps, firstSources)
    ensures Concat(LocalMaps(firstMaps)) == Translated(old(Concat(LocalMaps(maps))), old(Concat(LocalMaps(firstMaps))))
  {
    var pieces, inds := LocalMaps(maps), LocalMaps(firstMaps);
    PartsAreDistributed(maps, numSources);
    var out := Translate(pieces, numSources, BlocksizeFor(numSources, |maps|), inds);
    assert out == TranslatedAll(Concat(pieces), inds);
    TranslatedConcat(Concat(pieces), inds);
    SetAll(firstMaps, firstSources, out);
  }

  // InvertMap: the inverse map is resized to the map's sources and filled.
  method InvertDistMap(maps: seq<DistMap>, numSources: nat, inverseMaps: seq<DistMap>) returns (numRecvs: seq<nat>)
    requires AreParts(maps, numSources) && AreOnGrid(inverseMaps) && |inverseMaps| == |maps|
    requires IsPermutation(Concat(LocalMaps(maps)), numSources)
    modifies inverseMaps
    ensures AreParts(inverseMaps, numSources)
    ensures Invert.IsInverse(old(Concat(LocalMaps(maps))), Concat(LocalMaps(inverseMaps)))
    ensures |numRecvs| == |maps| && forall r :: 0 <= r < |maps| ==> numRecvs[r] == 2 * old(|maps[r].localMap|)
  {
    var pieces := LocalMaps(maps);
    PartsAreDistributed(maps, numSources);
    var inverse;
    inverse, numRecvs := Invert.InvertAll(pieces, numSources, BlocksizeFor(numSources, |maps|));
    ResizeAll(inverseMaps, numSources);
    PartsAreDistributed(inverseMaps, numSources);
    SetAll(inverseMaps, numSources, inverse);
  }

  // A map extended by its inverse takes every source to itself.
  method InvertThenExtend(maps: seq<DistMap>, numSources: nat, inverseMaps: seq<DistMap>)
    requires AreParts(maps, numSources) && AreOnGrid(inverseMaps) && |inverseMaps| == |maps|
    requires forall p, q :: 0 <= p < |maps| && 0 <= q < |maps| ==> maps[p] != inverseMaps[q]
    requires IsPermutation(Concat(LocalMaps(maps)), numSources)
    modifies maps, inverseMaps
    ensures AreParts(maps, numSources) && AreParts(inverseMaps, numSources)
    ensures Concat(LocalMaps(maps)) == seq(numSources, i => i)
  {
    ghost var pieces := LocalMaps(maps);
    PartsAreDistributed(maps, numSources);
    PiecesTile(numSources, BlocksizeFor(numSources, |maps|), pieces);
    Invert.PiecesAreNatural(pieces, numSources);
    var _ := InvertDistMap(maps, numSources, inverseMaps);
    assert LocalMaps(maps) == pieces;
    forall r | 0 <= r < |maps| ensures IsPart(maps, numSources, r) {
      assert old(IsPart(maps, numSources, r));
    }
    Invert.TranslatedMapIsIdentity(Concat(pieces), Concat(LocalMaps(inverseMaps)));
    Extend(inverseMaps, numSources, maps, numSources);
  }
}
