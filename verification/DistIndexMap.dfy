// Distributed index maps: DistMap.cpp. The distributed Translate and InvertMap
// are modelled for all processes in step, the collective calls in between.
module DistIndexMap {
  import opened Blocks
  import opened Integers

  function BlocksizeFor(numSources: nat, commSize: nat): (b: nat)
    requires 0 < commSize
    ensures 0 < b
  {
    var b := numSources / commSize;
    if b * commSize < numSources || numSources == 0 then b + 1 else b
  }

  function LocalSize(numSources: nat, blocksize: nat, rank: nat): nat {
    Min(blocksize, Max(numSources - blocksize * rank, 0))
  }

  lemma BlocksCover(numSources: nat, commSize: nat)
    requires 0 < commSize
    ensures numSources <= BlocksizeFor(numSources, commSize) * commSize
  {
    var b := numSources / commSize;
    assert numSources == b * commSize + numSources % commSize;
    assert (b + 1) * commSize == b * commSize + commSize;
  }

  // It is the least positive block size with which all sources find a place.
  lemma BlocksizeIsLeast(numSources: nat, commSize: nat)
    requires 0 < commSize
    ensures 0 < BlocksizeFor(numSources, commSize) && numSources <= BlocksizeFor(numSources, commSize) * commSize
    ensures forall c: nat :: 0 < c < BlocksizeFor(numSources, commSize) ==> c * commSize < numSources
  {
    BlocksCover(numSources, commSize);
    var b := BlocksizeFor(numSources, commSize);
    var q, r := numSources / commSize, numSources % commSize;
    assert numSources == q * commSize + r;
    forall c: nat | 0 < c < b ensures c * commSize < numSources {
      Scales(c, q, commSize);
      Scales(c + 1, q, commSize);
      assert (c + 1) * commSize == c * commSize + commSize;
    }
  }

  // So the sources are spread evenly: no process holds more than numSources divided
  // by the number of processes, rounded up.
  lemma PartsAreEven(numSources: nat, commSize: nat, rank: nat)
    requires 0 < commSize
    ensures var n := LocalSize(numSources, BlocksizeFor(numSources, commSize), rank);
            n > 0 ==> (n - 1) * commSize < numSources
  {
    var b := BlocksizeFor(numSources, commSize);
    var n := LocalSize(numSources, b, rank);
    BlocksizeIsLeast(numSources, commSize);
    if n > 1 {
      Scales(n - 1, b - 1, commSize);
      assert b > 1 ==> (b - 1) * commSize < numSources;
    } else if n == 1 {
      assert b * rank >= 0;
    }
  }

  // pieces[r] is the local part of process r; together they are the global map.
  ghost predicate IsDistributed(numSources: nat, b: nat, pieces: seq<seq<int>>) {
    && 0 < b && numSources <= b * |pieces|
    && forall r :: 0 <= r < |pieces| ==> |pieces[r]| == LocalSize(numSources, b, r)
  }

  lemma {:induction false} PieceStart(numSources: nat, b: nat, pieces: seq<seq<int>>, r: nat)
    requires IsDistributed(numSources, b, pieces) && r <= |pieces|
    ensures Start(pieces, r) == Min(b * r, numSources)
  {
    if r == 0 {
    } else {
      PieceStart(numSources, b, pieces, r - 1);
      ConcatNext(pieces, r - 1);
      OneMoreBlock(b, r - 1);
    }
  }

  lemma OneMoreBlock(b: nat, r: nat)
    ensures b * (r + 1) == b * r + b
  {
  }

  lemma PiecesTile(numSources: nat, b: nat, pieces: seq<seq<int>>)
    requires IsDistributed(numSources, b, pieces)
    ensures |Concat(pieces)| == numSources
  {
    PieceStart(numSources, b, pieces, |pieces|);
    assert pieces[..|pieces|] == pieces;
  }

  function RowOwner(i: int, blocksize: nat): int
    requires 0 < blocksize
  {
    i / blocksize
  }

  // RowOwner for a source, -1 for anything else.
  function OwnerOf(i: int, numSources: nat, b: nat): int
    requires 0 < b && 0 <= i
  {
    if i < numSources then RowOwner(i, b) else -1
  }

  lemma OwnerIsProcess(i: nat, numSources: nat, b: nat, commSize: nat)
    requires 0 < b && i < numSources <= b * commSize
    ensures var r := OwnerOf(i, numSources, b); 0 <= r < commSize && b * r <= i < b * r + b
  {
    var r := i / b;
    assert i == b * r + i % b;
    assert b * r == b * commSize + b * (r - commSize);
    assert r >= commSize ==> b * (r - commSize) >= 0;
  }

  lemma OwnerIffInBlock(i: nat, numSources: nat, b: nat, r: nat)
    requires 0 < b && i < numSources
    ensures OwnerOf(i, numSources, b) == r <==> b * r <= i < b * r + b
  {
    var q := i / b;
    assert i == b * q + i % b;
    assert b * q - b * r == b * (q - r);
    assert q - r >= 1 ==> b * (q - r) >= b;
    assert q - r <= -1 ==> b * (q - r) + b <= 0;
  }

  // What process r holds at i - b * r is entry i of the global map.
  ghost predicate IsLocal(i: int, piece: seq<int>, b: nat, r: nat, global: seq<int>) {
    && 0 <= i < |global| && 0 <= i - b * r < |piece|
    && piece[i - b * r] == global[i]
  }

  ghost predicate AllLocal(s: seq<int>, piece: seq<int>, b: nat, r: nat, global: seq<int>) {
    forall k :: 0 <= k < |s| ==> IsLocal(s[k], piece, b, r, global)
  }

  // Source i lives on its owner.
  lemma SourceIsLocal(numSources: nat, b: nat, pieces: seq<seq<int>>, i: nat)
    requires IsDistributed(numSources, b, pieces) && i < numSources
    ensures var r := OwnerOf(i, numSources, b); 0 <= r < |pieces| && IsLocal(i, pieces[r], b, r, Concat(pieces))
  {
    OwnerIsProcess(i, numSources, b, |pieces|);
    BlockIsLocal(numSources, b, pieces, i, OwnerOf(i, numSources, b));
  }

  lemma BlockIsLocal(numSources: nat, b: nat, pieces: seq<seq<int>>, i: nat, r: nat)
    requires IsDistributed(numSources, b, pieces) && r < |pieces| && b * r <= i < b * r + b && i < numSources
    ensures IsLocal(i, pieces[r], b, r, Concat(pieces))
  {
    PieceStart(numSources, b, pieces, r);
    var first := b * r;
    EntryOfPiece(pieces, r, first, i);
  }

  lemma EntryOfPiece(pieces: seq<seq<int>>, r: nat, first: nat, i: nat)
    requires r < |pieces| && Start(pieces, r) == first <= i < first + |pieces[r]|
    ensures i < |Concat(pieces)| && Concat(pieces)[i] == pieces[r][i - first]
  {
    BlockInConcat(pieces, r);
    SliceAt(Concat(pieces), first, pieces[r], i - first);
  }

  // Translate.

  // A source is replaced by its image, everything else stays.
  function Image(global: seq<int>, i: int): int {
    if 0 <= i < |global| then global[i] else i
  }

  function Translated(global: seq<int>, s: seq<int>): (t: seq<int>)
    ensures |t| == |s|
    ensures forall k :: 0 <= k < |t| ==> t[k] == Image(global, s[k])
  {
    seq(|s|, k requires 0 <= k < |s| => Image(global, s[k]))
  }

  ghost function TranslatedAll(global: seq<int>, ss: seq<seq<int>>): (ts: seq<seq<int>>)
    ensures |ts| == |ss|
    ensures forall q :: 0 <= q < |ts| ==> ts[q] == Translated(global, ss[q])
  {
    seq(|ss|, q requires 0 <= q < |ss| => Translated(global, ss[q]))
  }

  lemma {:induction false} TranslatedConcat(global: seq<int>, ss: seq<seq<int>>)
    ensures Translated(global, Concat(ss)) == Concat(TranslatedAll(global, ss))
  {
    if ss == [] {
    } else {
      var n := |ss| - 1;
      TranslatedConcat(global, ss[..n]);
      assert TranslatedAll(global, ss)[..n] == TranslatedAll(global, ss[..n]);
      assert Translated(global, Concat(ss[..n]) + ss[n])
          == Translated(global, Concat(ss[..n])) + Translated(global, ss[n]);
    }
  }

  predicate IsNatural(s: seq<int>) {
    forall k :: 0 <= k < |s| ==> 0 <= s[k]
  }

  ghost predicate IsOwned(inds: seq<int>, owners: seq<int>, numSources: nat, b: nat)
    requires 0 < b
  {
    && |owners| == |inds| && IsNatural(inds)
    && forall s :: 0 <= s < |inds| ==> owners[s] == OwnerOf(inds[s], numSources, b)
  }

  // The owners of the local indices; -1 for what is not a source.
  method OrigOwners(localInds: seq<int>, numSources: nat, blocksize: nat) returns (owners: seq<int>)
    requires 0 < blocksize && IsNatural(localInds)
    ensures IsOwned(localInds, owners, numSources, blocksize)
  {
    owners := [];
    for s := 0 to |localInds|
      invariant |owners| == s
      invariant forall t :: 0 <= t < s ==> owners[t] == OwnerOf(localInds[t], numSources, blocksize)
    {
      owners := owners + [if localInds[s] < numSources then RowOwner(localInds[s], blocksize) else -1];
    }
  }

  // Process commRank replaces the requests it has received by what they map to.
  method Fulfill(fulfills: array<int>, localMap: seq<int>, blocksize: nat, commRank: nat, ghost global: seq<int>)
    requires AllLocal(fulfills[..], localMap, blocksize, commRank, global)
    modifies fulfills
    ensures fulfills[..] == Translated(global, old(fulfills[..]))
  {
    ghost var before := fulfills[..];
    for s := 0 to fulfills.Length
      invariant forall k :: 0 <= k < s ==> fulfills[k] == Image(global, before[k])
      invariant forall k :: s <= k < fulfills.Length ==> fulfills[k] == before[k]
    {
      assert IsLocal(before[s], localMap, blocksize, commRank, global);
      var iLocal := fulfills[s] - blocksize * commRank;
      fulfills[s] := localMap[iLocal];
    }
  }

  // The reply to the request for item s is found where the request was packed.
  ghost predicate IsReplied(inds: seq<int>, owners: seq<int>, commSize: nat, replies: seq<int>, global: seq<int>,
                            s: nat)
    requires s < |inds| == |owners| && 0 <= owners[s] < commSize
  {
    Place(inds, owners, commSize, s) < |replies| && replies[Place(inds, owners, commSize, s)] == Image(global, inds[s])
  }

  lemma RepliesAreInPlace(inds: seq<int>, owners: seq<int>, commSize: nat, replies: seq<int>, global: seq<int>)
    requires IsAddressed(inds, owners, commSize)
    requires replies == Translated(global, Concat(BlocksFor(inds, owners, commSize)))
    ensures forall s :: 0 <= s < |inds| && owners[s] != -1 ==> IsReplied(inds, owners, commSize, replies, global, s)
  {
    forall s | 0 <= s < |inds| && owners[s] != -1 ensures IsReplied(inds, owners, commSize, replies, global, s) {
      PackedAt(inds, owners, commSize, s);
    }
  }

  // The replies go to where the requests were taken from.
  method Unpack(localInds: array<int>, owners: seq<int>, commSize: nat, offs: seq<nat>, replies: seq<int>,
                ghost inds: seq<int>, ghost global: seq<int>)
    requires localInds[..] == inds && IsAddressed(inds, owners, commSize)
    requires forall s :: 0 <= s < |inds| && owners[s] == -1 ==> Image(global, inds[s]) == inds[s]
    requires forall s :: 0 <= s < |inds| && owners[s] != -1 ==> IsReplied(inds, owners, commSize, replies, global, s)
    requires IsCursor(inds, owners, commSize, offs, 0)
    modifies localInds
    ensures localInds[..] == Translated(global, inds)
  {
    var next := offs;
    for s := 0 to localInds.Length
      invariant IsCursor(inds, owners, commSize, next, s)
      invariant forall k :: 0 <= k < s ==> localInds[k] == Image(global, inds[k])
      invariant forall k :: s <= k < localInds.Length ==> localInds[k] == inds[k]
    {
      CursorStep(inds, owners, commSize, next, s);
      if owners[s] != -1 {
        assert IsReplied(inds, owners, commSize, replies, global, s);
        localInds[s] := replies[next[owners[s]]];
        next := next[owners[s] := next[owners[s]] + 1];
      }
    }
  }

  // The owners are those of the sources among the local indices.
  ghost predicate AreOwned(numSources: nat, b: nat, inds: seq<seq<int>>, owners: seq<seq<int>>) {
    && 0 < b && AreMatched(inds, owners)
    && forall p :: 0 <= p < |inds| ==> IsOwned(inds[p], owners[p], numSources, b)
  }

  lemma OwnersAddress(numSources: nat, b: nat, inds: seq<int>, owners: seq<int>, commSize: nat)
    requires 0 < b && numSources <= b * commSize && IsOwned(inds, owners, numSources, b)
    ensures IsAddressed(inds, owners, commSize)
  {
    forall s | 0 <= s < |inds| ensures -1 <= owners[s] < commSize {
      if inds[s] < numSources {
        OwnerIsProcess(inds[s], numSources, b, commSize);
      }
    }
  }

  // Every request that reaches process r is for a source that r holds.
  lemma RequestsAreLocal(numSources: nat, b: nat, pieces: seq<seq<int>>, inds: seq<int>, owners: seq<int>, r: nat)
    requires IsDistributed(numSources, b, pieces) && IsOwned(inds, owners, numSources, b) && r < |pieces|
    ensures AllLocal(Select(inds, owners, r), pieces[r], b, r, Concat(pieces))
  {
    var sel := Select(inds, owners, r);
    forall k | 0 <= k < |sel| ensures IsLocal(sel[k], pieces[r], b, r, Concat(pieces)) {
      var s := SelectedIsItem(inds, owners, r, k);
      SourceIsLocal(numSources, b, pieces, inds[s]);
    }
  }

  lemma {:induction false} ConcatIsLocal(ss: seq<seq<int>>, piece: seq<int>, b: nat, r: nat, global: seq<int>)
    requires forall p :: 0 <= p < |ss| ==> AllLocal(ss[p], piece, b, r, global)
    ensures AllLocal(Concat(ss), piece, b, r, global)
  {
    if ss == [] {
    } else {
      var n := |ss| - 1;
      ConcatIsLocal(ss[..n], piece, b, r, global);
      assert AllLocal(ss[n], piece, b, r, global);
    }
  }

  lemma DeliveredIsLocal(numSources: nat, b: nat, pieces: seq<seq<int>>, inds: seq<seq<int>>, owners: seq<seq<int>>,
                         fulfills: seq<int>, r: nat)
    requires IsDistributed(numSources, b, pieces) && AreOwned(numSources, b, inds, owners)
    requires r < |pieces| && IsDelivered(inds, owners, fulfills, r)
    ensures AllLocal(fulfills, pieces[r], b, r, Concat(pieces))
  {
    var incoming := Incoming(inds, owners, r);
    forall p | 0 <= p < |incoming| ensures AllLocal(incoming[p], pieces[r], b, r, Concat(pieces)) {
      RequestsAreLocal(numSources, b, pieces, inds[p], owners[p], r);
    }
    ConcatIsLocal(incoming, pieces[r], b, r, Concat(pieces));
  }

  // The images of what the processes have asked process r for, by process.
  ghost function AnswerBlocks(global: seq<int>, inds: seq<seq<int>>, owners: seq<seq<int>>, r: nat): (bs: seq<seq<int>>)
    requires AreMatched(inds, owners)
    ensures |bs| == |inds|
    ensures forall p :: 0 <= p < |bs| ==> bs[p] == Translated(global, Select(inds[p], owners[p], r))
  {
    TranslatedAll(global, Incoming(inds, owners, r))
  }

  // Process r has answered, in the blocks in which the requests came.
  ghost predicate IsAnswered(global: seq<int>, inds: seq<seq<int>>, owners: seq<seq<int>>, parcel: Parcel<int>, r: nat)
    requires AreMatched(inds, owners)
  {
    Holds(AnswerBlocks(global, inds, owners, r), parcel)
  }

  // The size exchange tells process r how much each process asks for.
  method SizesFor(ghost inds: seq<seq<int>>, ghost owners: seq<seq<int>>, requests: seq<Parcel<int>>, r: nat)
    returns (sizes: seq<nat>)
    requires AreMatched(inds, owners) && ArePosted(inds, owners, requests, |inds|) && r < |inds|
    ensures |sizes| == |inds|
    ensures forall p :: 0 <= p < |inds| ==> sizes[p] == |Select(inds[p], owners[p], r)|
  {
    sizes := [];
    for p := 0 to |requests|
      invariant |sizes| == p
      invariant forall q :: 0 <= q < p ==> sizes[q] == |Select(inds[q], owners[q], r)|
    {
      assert IsPosted(inds[p], owners[p], |inds|, requests[p]);
      sizes := sizes + [requests[p].sizes[r]];
    }
  }

  // Process r answers what has been delivered to it.
  method Answer(ghost pieces: seq<seq<int>>, piece: seq<int>, ghost numSources: nat, b: nat, ghost inds: seq<seq<int>>,
                ghost owners: seq<seq<int>>, delivered: seq<int>, sizes: seq<nat>, r: nat)
    returns (parcel: Parcel<int>)
    requires IsDistributed(numSources, b, pieces) && AreOwned(numSources, b, inds, owners)
    requires r < |pieces| && piece == pieces[r] && IsDelivered(inds, owners, delivered, r)
    requires |sizes| == |inds| && forall p :: 0 <= p < |inds| ==> sizes[p] == |Select(inds[p], owners[p], r)|
    ensures IsAnswered(Concat(pieces), inds, owners, parcel, r)
  {
    DeliveredIsLocal(numSources, b, pieces, inds, owners, delivered, r);
    var fulfills := new int[|delivered|](k requires 0 <= k < |delivered| => delivered[k]);
    assert fulfills[..] == delivered;
    Fulfill(fulfills, piece, b, r, Concat(pieces));
    TranslatedConcat(Concat(pieces), Incoming(inds, owners, r));
    var offs, total := Scan(AnswerBlocks(Concat(pieces), inds, owners, r), sizes);
    parcel := Parcel(fulfills[..], sizes, offs);
  }

  // The first n processes have answered.
  ghost predicate AreAnswered(global: seq<int>, inds: seq<seq<int>>, owners: seq<seq<int>>,
                              parcels: seq<Parcel<int>>, n: nat)
    requires AreMatched(inds, owners)
  {
    |parcels| == n && forall r :: 0 <= r < n ==> IsAnswered(global, inds, owners, parcels[r], r)
  }

  lemma OneMoreAnswered(global: seq<int>, inds: seq<seq<int>>, owners: seq<seq<int>>, parcels: seq<Parcel<int>>,
                        parcel: Parcel<int>, n: nat)
    requires AreMatched(inds, owners) && AreAnswered(global, inds, owners, parcels, n)
    requires IsAnswered(global, inds, owners, parcel, n)
    ensures AreAnswered(global, inds, owners, parcels + [parcel], n + 1)
  {
    forall r | 0 <= r < n + 1 ensures IsAnswered(global, inds, owners, (parcels + [parcel])[r], r) {
      if r < n {
        assert (parcels + [parcel])[r] == parcels[r];
      } else {
        assert (parcels + [parcel])[r] == parcel;
      }
    }
  }

  // What comes back to process p are the images of its requests, in the order
  // in which it packed them.
  lemma RepliesAreImages(global: seq<int>, inds: seq<seq<int>>, owners: seq<seq<int>>, parcels: seq<Parcel<int>>,
                         p: nat)
    requires AreMatched(inds, owners) && p < |inds| && AreAnswered(global, inds, owners, parcels, |inds|)
    ensures CanExchange(parcels, p)
    ensures Received(parcels, p) == Translated(global, Concat(BlocksFor(inds[p], owners[p], |inds|)))
  {
    var blocks := seq(|inds|, r requires 0 <= r < |inds| => AnswerBlocks(global, inds, owners, r));
    forall r | 0 <= r < |inds| ensures Holds(blocks[r], parcels[r]) {
      assert IsAnswered(global, inds, owners, parcels[r], r);
    }
    ExchangeTransposes(blocks, parcels, p);
    assert Column(blocks, p) == TranslatedAll(global, BlocksFor(inds[p], owners[p], |inds|));
    TranslatedConcat(global, BlocksFor(inds[p], owners[p], |inds|));
  }

  lemma NoOwner(i: nat, numSources: nat, b: nat)
    requires 0 < b
    ensures OwnerOf(i, numSources, b) == -1 <==> numSources <= i
  {
  }

  lemma OthersStay(global: seq<int>, inds: seq<int>, owners: seq<int>, b: nat)
    requires 0 < b && IsOwned(inds, owners, |global|, b)
    ensures forall s :: 0 <= s < |inds| && owners[s] == -1 ==> Image(global, inds[s]) == inds[s]
  {
    forall s | 0 <= s < |inds| && owners[s] == -1 ensures Image(global, inds[s]) == inds[s] {
      assert OwnerOf(inds[s], |global|, b) == -1;
      NoOwner(inds[s], |global|, b);
    }
  }

  lemma PostedCursor(inds: seq<int>, owners: seq<int>, commSize: nat, request: Parcel<int>)
    requires |inds| == |owners| && IsPosted(inds, owners, commSize, request)
    ensures IsCursor(inds, owners, commSize, request.offs, 0)
  {
    CursorStart(inds, owners, commSize, request.sizes, request.offs);
  }

  // Process p puts the replies into its list.
  method TakeReplies(localInds: array<int>, ghost global: seq<int>, ghost b: nat,
                     ghost inds: seq<int>, owners: seq<int>, commSize: nat, request: Parcel<int>, replies: seq<int>)
    requires localInds[..] == inds && 0 < b && |global| <= b * commSize
    requires IsOwned(inds, owners, |global|, b) && IsPosted(inds, owners, commSize, request)
    requires replies == Translated(global, Concat(BlocksFor(inds, owners, commSize)))
    modifies localInds
    ensures localInds[..] == Translated(global, inds)
  {
    OwnersAddress(|global|, b, inds, owners, commSize);
    RepliesAreInPlace(inds, owners, commSize, replies, global);
    PostedCursor(inds, owners, commSize, request);
    OthersStay(global, inds, owners, b);
    Unpack(localInds, owners, commSize, request.offs, replies, inds, global);
  }

  // Translate on all processes: every source is replaced by its image under the
  // global map, everything else stays.
  method Translate(pieces: seq<seq<int>>, numSources: nat, blocksize: nat, inds: seq<seq<int>>)
    returns (out: seq<seq<int>>)
    requires IsDistributed(numSources, blocksize, pieces) && |inds| == |pieces|
    requires forall p :: 0 <= p < |inds| ==> IsNatural(inds[p])
    ensures |out| == |inds|
    ensures forall p :: 0 <= p < |inds| ==> out[p] == Translated(Concat(pieces), inds[p])
  {
    var owners: seq<seq<int>> := [];
    for p := 0 to |inds|
      invariant |owners| == p
      invariant forall q :: 0 <= q < p ==> IsOwned(inds[q], owners[q], numSources, blocksize)
    {
      var mine := OrigOwners(inds[p], numSources, blocksize);
      owners := owners + [mine];
    }
    AllAddressed(numSources, blocksize, inds, owners);
    var fulfills, requests := SendAll(inds, owners);
    var answers := AnswerAll(pieces, numSources, blocksize, inds, owners, fulfills, requests);
    PiecesTile(numSources, blocksize, pieces);
    out := TakeAll(Concat(pieces), blocksize, inds, owners, requests, answers);
  }

  lemma AllAddressed(numSources: nat, b: nat, inds: seq<seq<int>>, owners: seq<seq<int>>)
    requires 0 < b && numSources <= b * |inds| && |owners| == |inds|
    requires forall q :: 0 <= q < |inds| ==> IsOwned(inds[q], owners[q], numSources, b)
    ensures AreOwned(numSources, b, inds, owners) && AreAddressed(inds, owners)
  {
    forall p | 0 <= p < |inds| ensures |inds[p]| == |owners[p]| && IsAddressed(inds[p], owners[p], |inds|) {
      OwnersAddress(numSources, b, inds[p], owners[p], |inds|);
    }
  }

  method AnswerAll(pieces: seq<seq<int>>, ghost numSources: nat, b: nat, ghost inds: seq<seq<int>>,
                   ghost owners: seq<seq<int>>, fulfills: seq<seq<int>>, requests: seq<Parcel<int>>)
    returns (answers: seq<Parcel<int>>)
    requires IsDistributed(numSources, b, pieces) && AreOwned(numSources, b, inds, owners)
    requires |fulfills| == |inds| == |pieces| && ArePosted(inds, owners, requests, |inds|)
    requires forall r :: 0 <= r < |inds| ==> IsDelivered(inds, owners, fulfills[r], r)
    ensures AreAnswered(Concat(pieces), inds, owners, answers, |inds|)
  {
    answers := [];
    for r := 0 to |pieces|
      invariant AreAnswered(Concat(pieces), inds, owners, answers, r)
    {
      var sizes := SizesFor(inds, owners, requests, r);
      var answer := Answer(pieces, pieces[r], numSources, b, inds, owners, fulfills[r], sizes, r);
      OneMoreAnswered(Concat(pieces), inds, owners, answers, answer, r);
      answers := answers + [answer];
    }
  }

  method TakeAll(ghost global: seq<int>, ghost b: nat, inds: seq<seq<int>>,
                 owners: seq<seq<int>>, requests: seq<Parcel<int>>, answers: seq<Parcel<int>>)
    returns (out: seq<seq<int>>)
    requires AreOwned(|global|, b, inds, owners) && |global| <= b * |inds|
    requires ArePosted(inds, owners, requests, |inds|) && AreAnswered(global, inds, owners, answers, |inds|)
    ensures |out| == |inds|
    ensures forall p :: 0 <= p < |inds| ==> out[p] == Translated(global, inds[p])
  {
    out := [];
    for p := 0 to |inds|
      invariant |out| == p
      invariant forall q :: 0 <= q < p ==> out[q] == Translated(global, inds[q])
    {
      var mine := TakeAt(global, b, inds, owners, requests, answers, p);
      out := out + [mine];
    }
  }

  method TakeAt(ghost global: seq<int>, ghost b: nat, inds: seq<seq<int>>,
                owners: seq<seq<int>>, requests: seq<Parcel<int>>, answers: seq<Parcel<int>>, p: nat)
    returns (mine: seq<int>)
    requires AreOwned(|global|, b, inds, owners) && |global| <= b * |inds| && p < |inds|
    requires ArePosted(inds, owners, requests, |inds|) && AreAnswered(global, inds, owners, answers, |inds|)
    ensures mine == Translated(global, inds[p])
  {
    RepliesAreImages(global, inds, owners, answers, p);
    assert IsPosted(inds[p], owners[p], |inds|, requests[p]);
    var localInds := new int[|inds[p]|](k requires 0 <= k < |inds[p]| => inds[p][k]);
    assert localInds[..] == inds[p];
    TakeReplies(localInds, global, b, inds[p], owners[p], |inds|, requests[p], Received(answers, p));
    mine := localInds[..];
  }
}
