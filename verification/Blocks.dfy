// Sequences of blocks, and what an all-to-all exchange does to them.
module Blocks {

  function Concat<T>(ss: seq<seq<T>>): seq<T> {
    if ss == [] then [] else Concat(ss[..|ss|-1]) + ss[|ss|-1]
  }

  // Where block q starts in the concatenation.
  function Start<T>(ss: seq<seq<T>>, q: nat): nat
    requires q <= |ss|
  {
    |Concat(ss[..q])|
  }

  lemma ConcatNext<T>(ss: seq<seq<T>>, q: nat)
    requires q < |ss|
    ensures Concat(ss[..q+1]) == Concat(ss[..q]) + ss[q]
    ensures Start(ss, q + 1) == Start(ss, q) + |ss[q]|
  {
    assert ss[..q+1][..q] == ss[..q];
  }

  lemma {:induction false} StartsAscend<T>(ss: seq<seq<T>>, q: nat, r: nat)
    requires q <= r <= |ss|
    ensures Start(ss, q) <= Start(ss, r)
    ensures Concat(ss[..r])[..Start(ss, q)] == Concat(ss[..q])
    decreases r
  {
    if q == r {
    } else {
      StartsAscend(ss, q, r - 1);
      ConcatNext(ss, r - 1);
    }
  }

  // Block q can be read off the concatenation.
  lemma BlockInConcat<T>(ss: seq<seq<T>>, q: nat)
    requires q < |ss|
    ensures Start(ss, q) + |ss[q]| <= |Concat(ss)|
    ensures Concat(ss)[Start(ss, q)..Start(ss, q) + |ss[q]|] == ss[q]
  {
    ConcatNext(ss, q);
    StartsAscend(ss, q + 1, |ss|);
    assert ss[..|ss|] == ss;
    var all := Concat(ss);
    assert all[..Start(ss, q + 1)] == Concat(ss[..q]) + ss[q];
    assert all[Start(ss, q)..Start(ss, q + 1)] == all[..Start(ss, q + 1)][Start(ss, q)..];
  }

  // A sequence that agrees with every block is the concatenation.
  lemma {:induction false} ConcatByBlocks<T>(ss: seq<seq<T>>, buf: seq<T>, n: nat)
    requires n <= |ss| && |buf| == |Concat(ss)|
    requires forall q :: 0 <= q < |ss| ==> HasBlock(ss, buf, q)
    ensures Start(ss, n) <= |buf| && buf[..Start(ss, n)] == Concat(ss[..n])
    decreases n
  {
    StartsAscend(ss, n, |ss|);
    assert ss[..|ss|] == ss;
    if n == 0 {
    } else {
      ConcatByBlocks(ss, buf, n - 1);
      ConcatNext(ss, n - 1);
      assert HasBlock(ss, buf, n - 1);
      assert buf[..Start(ss, n)] == buf[..Start(ss, n - 1)] + buf[Start(ss, n - 1)..Start(ss, n)];
    }
  }

  ghost predicate HasBlock<T>(ss: seq<seq<T>>, buf: seq<T>, q: nat)
    requires q < |ss|
  {
    Start(ss, q) + |ss[q]| <= |buf| && buf[Start(ss, q)..Start(ss, q) + |ss[q]|] == ss[q]
  }

  // blocks[p][r] is what process p has for process r; column r is what r gets.
  function Column<T>(blocks: seq<seq<seq<T>>>, r: nat): (c: seq<seq<T>>)
    requires forall p :: 0 <= p < |blocks| ==> r < |blocks[p]|
    ensures |c| == |blocks|
  {
    seq(|blocks|, p requires 0 <= p < |blocks| => blocks[p][r])
  }

  // The arguments of MPI_Alltoallv on one process: a buffer, and for each process
  // the size and the offset of the segment that it gets.
  datatype Parcel<T> = Parcel(buf: seq<T>, sizes: seq<nat>, offs: seq<nat>)

  predicate HasSegment<T>(parcel: Parcel<T>, r: nat) {
    r < |parcel.sizes| && r < |parcel.offs| && parcel.offs[r] + parcel.sizes[r] <= |parcel.buf|
  }

  function Segment<T>(parcel: Parcel<T>, r: nat): seq<T>
    requires HasSegment(parcel, r)
  {
    parcel.buf[parcel.offs[r]..parcel.offs[r] + parcel.sizes[r]]
  }

  predicate CanExchange<T>(parcels: seq<Parcel<T>>, r: nat) {
    forall p :: 0 <= p < |parcels| ==> HasSegment(parcels[p], r)
  }

  // MPI_Alltoallv as seen by process r: the segments that the senders have for
  // it, one after the other.
  function Received<T>(parcels: seq<Parcel<T>>, r: nat): seq<T>
    requires CanExchange(parcels, r)
  {
    Concat(seq(|parcels|, p requires 0 <= p < |parcels| => Segment(parcels[p], r)))
  }

  // The sizes and offsets belong to the blocks ...
  ghost predicate Describes<T>(blocks: seq<seq<T>>, sizes: seq<nat>, offs: seq<nat>) {
    && |sizes| == |offs| == |blocks|
    && forall q :: 0 <= q < |blocks| ==> sizes[q] == |blocks[q]| && offs[q] == Start(blocks, q)
  }

  // ... and the buffer holds them.
  ghost predicate Holds<T>(blocks: seq<seq<T>>, parcel: Parcel<T>) {
    Describes(blocks, parcel.sizes, parcel.offs) && parcel.buf == Concat(blocks)
  }

  lemma SegmentIsBlock<T>(blocks: seq<seq<T>>, parcel: Parcel<T>, r: nat)
    requires Holds(blocks, parcel) && r < |blocks|
    ensures HasSegment(parcel, r) && Segment(parcel, r) == blocks[r]
  {
    BlockInConcat(blocks, r);
  }

  // Exchanging packed blocks is transposing them.
  lemma ExchangeTransposes<T>(blocks: seq<seq<seq<T>>>, parcels: seq<Parcel<T>>, r: nat)
    requires |blocks| == |parcels|
    requires forall p :: 0 <= p < |blocks| ==> r < |blocks[p]|
    requires forall p :: 0 <= p < |blocks| ==> Holds(blocks[p], parcels[p])
    ensures CanExchange(parcels, r)
    ensures Received(parcels, r) == Concat(Column(blocks, r))
  {
    forall p | 0 <= p < |blocks| ensures HasSegment(parcels[p], r) && Segment(parcels[p], r) == blocks[p][r] {
      SegmentIsBlock(blocks[p], parcels[p], r);
    }
    assert seq(|parcels|, p requires 0 <= p < |parcels| => Segment(parcels[p], r)) == Column(blocks, r);
  }

  // The items sent to q, in order; dest[s] is where item s goes, or -1.
  function Select<T>(items: seq<T>, dest: seq<int>, q: int): (r: seq<T>)
    requires |items| == |dest|
    ensures |r| <= |items|
  {
    if items == [] then []
    else
      var n := |items| - 1;
      Select(items[..n], dest[..n], q) + if dest[n] == q then [items[n]] else []
  }

  lemma SelectNext<T>(items: seq<T>, dest: seq<int>, q: int, s: nat)
    requires |items| == |dest| && s < |items|
    ensures Select(items[..s+1], dest[..s+1], q)
         == Select(items[..s], dest[..s], q) + if dest[s] == q then [items[s]] else []
  {
    assert items[..s+1][..s] == items[..s] && dest[..s+1][..s] == dest[..s];
  }

  lemma {:induction false} SelectPrefix<T>(items: seq<T>, dest: seq<int>, q: int, s: nat, n: nat)
    requires |items| == |dest| && s <= n <= |items|
    ensures Select(items[..s], dest[..s], q) <= Select(items[..n], dest[..n], q)
    decreases n
  {
    if s == n {
    } else {
      SelectPrefix(items, dest, q, s, n - 1);
      SelectNext(items, dest, q, n - 1);
    }
  }

  // Item s is found in what goes to its destination, at the place given by the
  // number of earlier items for the same destination.
  lemma SelectAt<T>(items: seq<T>, dest: seq<int>, s: nat)
    requires |items| == |dest| && s < |items|
    ensures var k := |Select(items[..s], dest[..s], dest[s])|;
            k < |Select(items, dest, dest[s])| && Select(items, dest, dest[s])[k] == items[s]
  {
    SelectNext(items, dest, dest[s], s);
    SelectPrefix(items, dest, dest[s], s + 1, |items|);
    assert items[..|items|] == items && dest[..|dest|] == dest;
  }

  lemma {:induction false} SelectedIsItem<T>(items: seq<T>, dest: seq<int>, q: int, k: nat) returns (s: nat)
    requires |items| == |dest| && k < |Select(items, dest, q)|
    ensures s < |items| && dest[s] == q && items[s] == Select(items, dest, q)[k]
    decreases |items|
  {
    var n := |items| - 1;
    if k < |Select(items[..n], dest[..n], q)| {
      s := SelectedIsItem(items[..n], dest[..n], q, k);
    } else {
      s := n;
    }
  }

  // The blocks for the processes 0..commSize-1.
  function BlocksFor<T>(items: seq<T>, dest: seq<int>, commSize: nat): (bs: seq<seq<T>>)
    requires |items| == |dest|
    ensures |bs| == commSize && forall q :: 0 <= q < commSize ==> bs[q] == Select(items, dest, q)
  {
    seq(commSize, q => Select(items, dest, q))
  }

  // Counting how many items go to each process.
  method Count<T>(items: seq<T>, dest: seq<int>, commSize: nat) returns (sizes: seq<nat>)
    requires |items| == |dest| && forall s :: 0 <= s < |dest| ==> -1 <= dest[s] < commSize
    ensures |sizes| == commSize && forall q :: 0 <= q < commSize ==> sizes[q] == |Select(items, dest, q)|
  {
    var a := new nat[commSize](q => 0);
    for s := 0 to |items|
      invariant forall q :: 0 <= q < commSize ==> a[q] == |Select(items[..s], dest[..s], q)|
    {
      forall q | 0 <= q < commSize
        ensures |Select(items[..s+1], dest[..s+1], q)| == a[q] + if dest[s] == q then 1 else 0
      {
        SelectNext(items, dest, q, s);
      }
      if dest[s] != -1 {
        a[dest[s]] := a[dest[s]] + 1;
      }
    }
    assert items[..|items|] == items && dest[..|dest|] == dest;
    sizes := a[..];
  }

  // Scan: offsets are the sums of the sizes before them.
  method Scan<T>(ghost blocks: seq<seq<T>>, sizes: seq<nat>) returns (offs: seq<nat>, total: nat)
    requires |sizes| == |blocks| && forall q :: 0 <= q < |blocks| ==> sizes[q] == |blocks[q]|
    ensures Describes(blocks, sizes, offs) && total == |Concat(blocks)|
  {
    offs, total := [], 0;
    for i := 0 to |sizes|
      invariant |offs| == i && total == Start(blocks, i)
      invariant forall q :: 0 <= q < i ==> offs[q] == Start(blocks, q)
    {
      ConcatNext(blocks, i);
      offs := offs + [total];
      total := total + sizes[i];
    }
    assert blocks[..|blocks|] == blocks;
  }

  // Packing: each item goes to the next free place of its destination's block.

  ghost predicate PackedUpTo<T>(items: seq<T>, dest: seq<int>, commSize: nat, buf: seq<T>, s: nat, q: nat)
    requires s <= |items| == |dest| && q < commSize
  {
    var blocks, part := BlocksFor(items, dest, commSize), Select(items[..s], dest[..s], q);
    Start(blocks, q) + |part| <= |buf| && buf[Start(blocks, q)..Start(blocks, q) + |part|] == part
  }

  ghost predicate IsPacked<T>(items: seq<T>, dest: seq<int>, commSize: nat, buf: seq<T>, s: nat)
    requires s <= |items| == |dest|
  {
    forall q :: 0 <= q < commSize ==> PackedUpTo(items, dest, commSize, buf, s, q)
  }

  lemma PackStart<T>(items: seq<T>, dest: seq<int>, commSize: nat, buf: seq<T>)
    requires |items| == |dest| && |buf| == |Concat(BlocksFor(items, dest, commSize))|
    ensures IsPacked(items, dest, commSize, buf, 0)
  {
    forall q | 0 <= q < commSize ensures PackedUpTo(items, dest, commSize, buf, 0, q) {
      BlockInConcat(BlocksFor(items, dest, commSize), q);
    }
  }

  // The next free place in the block of the destination of item s.
  function Place<T>(items: seq<T>, dest: seq<int>, commSize: nat, s: nat): nat
    requires s < |items| == |dest| && 0 <= dest[s] < commSize
  {
    Start(BlocksFor(items, dest, commSize), dest[s]) + |Select(items[..s], dest[..s], dest[s])|
  }

  lemma SliceAt<T>(all: seq<T>, from: nat, block: seq<T>, k: nat)
    requires from + |block| <= |all| && all[from..from + |block|] == block && k < |block|
    ensures all[from + k] == block[k]
  {
    assert all[from..from + |block|][k] == all[from + k];
  }

  // In a packed buffer every item is at its place.
  lemma PackedAt<T>(items: seq<T>, dest: seq<int>, commSize: nat, s: nat)
    requires s < |items| == |dest| && 0 <= dest[s] < commSize
    ensures Place(items, dest, commSize, s) < |Concat(BlocksFor(items, dest, commSize))|
    ensures Concat(BlocksFor(items, dest, commSize))[Place(items, dest, commSize, s)] == items[s]
  {
    var blocks, k := BlocksFor(items, dest, commSize), |Select(items[..s], dest[..s], dest[s])|;
    SelectAt(items, dest, s);
    BlockInConcat(blocks, dest[s]);
    SliceAt(Concat(blocks), Start(blocks, dest[s]), Select(items, dest, dest[s]), k);
  }

  lemma PackStep<T>(items: seq<T>, dest: seq<int>, commSize: nat, buf: seq<T>, s: nat, buf': seq<T>)
    requires s < |items| == |dest| && 0 <= dest[s] < commSize
    requires |buf| == |Concat(BlocksFor(items, dest, commSize))| && IsPacked(items, dest, commSize, buf, s)
    requires Place(items, dest, commSize, s) < |buf| ==> buf' == buf[Place(items, dest, commSize, s) := items[s]]
    ensures Place(items, dest, commSize, s) < |buf|
    ensures IsPacked(items, dest, commSize, buf', s + 1)
  {
    PackedAt(items, dest, commSize, s);
    var s1 := s + 1;
    forall q | 0 <= q < commSize ensures PackedUpTo(items, dest, commSize, buf', s1, q) {
      if q == dest[s] {
        PackHere(items, dest, commSize, buf, s);
      } else {
        PackElsewhere(items, dest, commSize, buf, s, q);
      }
    }
  }

  lemma PackHere<T>(items: seq<T>, dest: seq<int>, commSize: nat, buf: seq<T>, s: nat)
    requires s < |items| == |dest| && 0 <= dest[s] < commSize && Place(items, dest, commSize, s) < |buf|
    requires PackedUpTo(items, dest, commSize, buf, s, dest[s])
    ensures PackedUpTo(items, dest, commSize, buf[Place(items, dest, commSize, s) := items[s]], s + 1, dest[s])
  {
    SelectNext(items, dest, dest[s], s);
  }

  lemma PackElsewhere<T>(items: seq<T>, dest: seq<int>, commSize: nat, buf: seq<T>, s: nat, q: nat)
    requires s < |items| == |dest| && 0 <= dest[s] < commSize && Place(items, dest, commSize, s) < |buf|
    requires q < commSize && q != dest[s] && PackedUpTo(items, dest, commSize, buf, s, q)
    ensures PackedUpTo(items, dest, commSize, buf[Place(items, dest, commSize, s) := items[s]], s + 1, q)
  {
    SelectNext(items, dest, q, s);
    PlaceIsApart(items, dest, commSize, s, q);
  }

  lemma PlaceIsApart<T>(items: seq<T>, dest: seq<int>, commSize: nat, s: nat, q: nat)
    requires s < |items| == |dest| && 0 <= dest[s] < commSize && q < commSize && q != dest[s]
    ensures var from := Start(BlocksFor(items, dest, commSize), q);
            || Place(items, dest, commSize, s) < from
            || from + |Select(items[..s], dest[..s], q)| <= Place(items, dest, commSize, s)
  {
    SelectAt(items, dest, s);
    SelectPrefix(items, dest, q, s, |items|);
    assert items[..|items|] == items && dest[..|dest|] == dest;
    BlocksAreApart(BlocksFor(items, dest, commSize), q, dest[s]);
  }

  lemma BlocksAreApart<T>(blocks: seq<seq<T>>, q: nat, d: nat)
    requires q < |blocks| && d < |blocks| && q != d
    ensures Start(blocks, q) + |blocks[q]| <= Start(blocks, d) || Start(blocks, d) + |blocks[d]| <= Start(blocks, q)
  {
    ConcatNext(blocks, q);
    ConcatNext(blocks, d);
    if q < d {
      StartsAscend(blocks, q + 1, d);
    } else {
      StartsAscend(blocks, d + 1, q);
    }
  }

  lemma PackSkip<T>(items: seq<T>, dest: seq<int>, commSize: nat, buf: seq<T>, s: nat)
    requires s < |items| == |dest| && dest[s] == -1 && IsPacked(items, dest, commSize, buf, s)
    ensures IsPacked(items, dest, commSize, buf, s + 1)
  {
    var s1 := s + 1;
    forall q | 0 <= q < commSize ensures PackedUpTo(items, dest, commSize, buf, s1, q) {
      SelectNext(items, dest, q, s);
      assert PackedUpTo(items, dest, commSize, buf, s, q);
    }
  }

  lemma PackEnd<T>(items: seq<T>, dest: seq<int>, commSize: nat, buf: seq<T>)
    requires |items| == |dest| && |buf| == |Concat(BlocksFor(items, dest, commSize))|
    requires IsPacked(items, dest, commSize, buf, |items|)
    ensures buf == Concat(BlocksFor(items, dest, commSize))
  {
    var blocks := BlocksFor(items, dest, commSize);
    assert items[..|items|] == items && dest[..|dest|] == dest;
    forall q | 0 <= q < commSize ensures HasBlock(blocks, buf, q) {
      assert PackedUpTo(items, dest, commSize, buf, |items|, q);
    }
    ConcatByBlocks(blocks, buf, commSize);
    assert blocks[..commSize] == blocks;
  }

  // The running offsets of the packing and unpacking loops.
  ghost predicate IsCursor<T>(items: seq<T>, dest: seq<int>, commSize: nat, next: seq<nat>, s: nat)
    requires s <= |items| == |dest|
  {
    |next| == commSize && forall q :: 0 <= q < commSize ==> CursorAt(items, dest, commSize, next, s, q)
  }

  ghost predicate CursorAt<T>(items: seq<T>, dest: seq<int>, commSize: nat, next: seq<nat>, s: nat, q: nat)
    requires s <= |items| == |dest| && q < commSize == |next|
  {
    next[q] == Start(BlocksFor(items, dest, commSize), q) + |Select(items[..s], dest[..s], q)|
  }

  lemma CursorStart<T>(items: seq<T>, dest: seq<int>, commSize: nat, sizes: seq<nat>, offs: seq<nat>)
    requires |items| == |dest| && Describes(BlocksFor(items, dest, commSize), sizes, offs)
    ensures IsCursor(items, dest, commSize, offs, 0)
  {
    forall q | 0 <= q < commSize ensures CursorAt(items, dest, commSize, offs, 0, q) {
    }
  }

  lemma CursorStep<T>(items: seq<T>, dest: seq<int>, commSize: nat, next: seq<nat>, s: nat)
    requires s < |items| == |dest| && -1 <= dest[s] < commSize && IsCursor(items, dest, commSize, next, s)
    ensures dest[s] == -1 ==> IsCursor(items, dest, commSize, next, s + 1)
    ensures dest[s] != -1 ==>
              && next[dest[s]] == Place(items, dest, commSize, s)
              && IsCursor(items, dest, commSize, next[dest[s] := next[dest[s]] + 1], s + 1)
  {
    var next' := if dest[s] == -1 then next else next[dest[s] := next[dest[s]] + 1];
    var s1 := s + 1;
    forall q | 0 <= q < commSize ensures CursorAt(items, dest, commSize, next', s1, q) {
      assert CursorAt(items, dest, commSize, next, s, q);
      SelectNext(items, dest, q, s);
    }
    if dest[s] != -1 {
      assert CursorAt(items, dest, commSize, next, s, dest[s]);
    }
  }

  method Pack<T(0)>(items: seq<T>, dest: seq<int>, commSize: nat, ghost sizes: seq<nat>, offs: seq<nat>, total: nat)
    returns (buf: seq<T>)
    requires |items| == |dest| && forall s :: 0 <= s < |dest| ==> -1 <= dest[s] < commSize
    requires Describes(BlocksFor(items, dest, commSize), sizes, offs)
    requires total == |Concat(BlocksFor(items, dest, commSize))|
    ensures buf == Concat(BlocksFor(items, dest, commSize))
  {
    var a := new T[total];
    var next := offs;
    CursorStart(items, dest, commSize, sizes, offs);
    PackStart(items, dest, commSize, a[..]);
    for s := 0 to |items|
      invariant IsCursor(items, dest, commSize, next, s)
      invariant IsPacked(items, dest, commSize, a[..], s)
    {
      ghost var before := a[..];
      CursorStep(items, dest, commSize, next, s);
      if dest[s] != -1 {
        ghost var place := Place(items, dest, commSize, s);
        PackStep(items, dest, commSize, before, s, if place < |before| then before[place := items[s]] else before);
        a[next[dest[s]]] := items[s];
        next := next[dest[s] := next[dest[s]] + 1];
      } else {
        PackSkip(items, dest, commSize, before, s);
      }
    }
    buf := a[..];
    PackEnd(items, dest, commSize, buf);
  }

  lemma {:induction false} SelectAppend<T>(a: seq<T>, da: seq<int>, b: seq<T>, db: seq<int>, q: int)
    requires |a| == |da| && |b| == |db|
    ensures Select(a + b, da + db, q) == Select(a, da, q) + Select(b, db, q)
    decreases |b|
  {
    if b == [] {
      assert a + b == a && da + db == da;
    } else {
      var n := |b| - 1;
      assert (a + b)[..|a| + n] == a + b[..n] && (da + db)[..|a| + n] == da + db[..n];
      SelectAppend(a, da, b[..n], db[..n], q);
    }
  }

  // Selecting from all processes together is selecting from each and concatenating.
  lemma {:induction false} SelectConcat<T>(items: seq<seq<T>>, dests: seq<seq<int>>, parts: seq<seq<T>>, q: int)
    requires |items| == |dests| == |parts|
    requires forall p :: 0 <= p < |items| ==> |items[p]| == |dests[p]| && parts[p] == Select(items[p], dests[p], q)
    ensures |Concat(items)| == |Concat(dests)|
    ensures Concat(parts) == Select(Concat(items), Concat(dests), q)
  {
    if items == [] {
    } else {
      var n := |items| - 1;
      SelectConcat(items[..n], dests[..n], parts[..n], q);
      SelectAppend(Concat(items[..n]), Concat(dests[..n]), items[n], dests[n], q);
    }
  }

  ghost function SentTo(dest: seq<int>, q: int): set<int> {
    set s | 0 <= s < |dest| && dest[s] == q
  }

  lemma {:induction false} SelectCount<T>(items: seq<T>, dest: seq<int>, q: int)
    requires |items| == |dest|
    ensures |Select(items, dest, q)| == |SentTo(dest, q)|
  {
    if items == [] {
      assert SentTo(dest, q) == {};
    } else {
      var n := |items| - 1;
      SelectCount(items[..n], dest[..n], q);
      assert SentTo(dest, q) == SentTo(dest[..n], q) + if dest[n] == q then {n} else {};
    }
  }

  // items[p][s] goes to process dests[p][s].
  ghost predicate AreMatched<T>(items: seq<seq<T>>, dests: seq<seq<int>>) {
    |items| == |dests| && forall p :: 0 <= p < |items| ==> |items[p]| == |dests[p]|
  }

  // What process r gets when each process p sends its items to dests[p].
  ghost function Incoming<T>(items: seq<seq<T>>, dests: seq<seq<int>>, r: nat): (c: seq<seq<T>>)
    requires AreMatched(items, dests)
    ensures |c| == |items| && forall p :: 0 <= p < |c| ==> c[p] == Select(items[p], dests[p], r)
  {
    seq(|items|, p requires 0 <= p < |items| => Select(items[p], dests[p], r))
  }

  ghost predicate IsAddressed<T>(items: seq<T>, dest: seq<int>, commSize: nat) {
    |items| == |dest| && forall s :: 0 <= s < |dest| ==> -1 <= dest[s] < commSize
  }

  ghost predicate AreAddressed<T>(items: seq<seq<T>>, dests: seq<seq<int>>) {
    && AreMatched(items, dests)
    && forall p :: 0 <= p < |items| ==> IsAddressed(items[p], dests[p], |items|)
  }

  // A process has packed its items.
  ghost predicate IsPosted<T>(items: seq<T>, dest: seq<int>, commSize: nat, parcel: Parcel<T>)
    requires |items| == |dest|
  {
    Holds(BlocksFor(items, dest, commSize), parcel)
  }

  // Process r has received what the others have for it, in the order of the senders.
  ghost predicate IsDelivered<T>(items: seq<seq<T>>, dests: seq<seq<int>>, recv: seq<T>, r: nat)
    requires AreMatched(items, dests)
  {
    recv == Concat(Incoming(items, dests, r))
  }

  // One process counts, scans and packs.
  method Post<T(0)>(items: seq<T>, dest: seq<int>, commSize: nat) returns (parcel: Parcel<T>)
    requires IsAddressed(items, dest, commSize)
    ensures IsPosted(items, dest, commSize, parcel)
  {
    var sizes := Count(items, dest, commSize);
    var offs, total := Scan(BlocksFor(items, dest, commSize), sizes);
    var buf := Pack(items, dest, commSize, sizes, offs, total);
    parcel := Parcel(buf, sizes, offs);
  }

  // Exchanging what all have posted delivers it.
  lemma PostedIsReceived<T>(items: seq<seq<T>>, dests: seq<seq<int>>, parcels: seq<Parcel<T>>, r: nat)
    requires AreMatched(items, dests) && ArePosted(items, dests, parcels, |items|) && r < |items|
    ensures CanExchange(parcels, r)
    ensures IsDelivered(items, dests, Received(parcels, r), r)
  {
    forall p | 0 <= p < |parcels|
      ensures HasSegment(parcels[p], r) && Segment(parcels[p], r) == Select(items[p], dests[p], r)
    {
      SegmentIsBlock(BlocksFor(items[p], dests[p], |items|), parcels[p], r);
    }
    assert seq(|parcels|, p requires 0 <= p < |parcels| => Segment(parcels[p], r)) == Incoming(items, dests, r);
  }

  // All processes pack, exchange their sizes and then their items.
  method SendAll<T(0)>(items: seq<seq<T>>, dests: seq<seq<int>>) returns (recvs: seq<seq<T>>, parcels: seq<Parcel<T>>)
    requires AreAddressed(items, dests)
    ensures |recvs| == |items| && ArePosted(items, dests, parcels, |items|)
    ensures forall r :: 0 <= r < |items| ==> IsDelivered(items, dests, recvs[r], r)
  {
    parcels := PostAll(items, dests);
    AllReceived(items, dests, parcels);
    recvs := seq(|items|, r requires 0 <= r < |items| && CanExchange(parcels, r) => Received(parcels, r));
  }

  lemma AllReceived<T>(items: seq<seq<T>>, dests: seq<seq<int>>, parcels: seq<Parcel<T>>)
    requires AreMatched(items, dests) && ArePosted(items, dests, parcels, |items|)
    ensures forall r :: 0 <= r < |items| ==> CanExchange(parcels, r)
    ensures forall r :: 0 <= r < |items| ==> IsDelivered(items, dests, Received(parcels, r), r)
  {
    forall r | 0 <= r < |items|
      ensures CanExchange(parcels, r)
      ensures IsDelivered(items, dests, Received(parcels, r), r)
    {
      PostedIsReceived(items, dests, parcels, r);
    }
  }

  // The first n processes have packed their items.
  ghost predicate ArePosted<T>(items: seq<seq<T>>, dests: seq<seq<int>>, parcels: seq<Parcel<T>>, n: nat)
    requires AreMatched(items, dests) && n <= |items|
  {
    |parcels| == n && forall p :: 0 <= p < n ==> IsPosted(items[p], dests[p], |items|, parcels[p])
  }

  lemma OneMorePosted<T>(items: seq<seq<T>>, dests: seq<seq<int>>, parcels: seq<Parcel<T>>, parcel: Parcel<T>, n: nat)
    requires AreMatched(items, dests) && n < |items| && ArePosted(items, dests, parcels, n)
    requires IsPosted(items[n], dests[n], |items|, parcel)
    ensures ArePosted(items, dests, parcels + [parcel], n + 1)
  {
    forall p | 0 <= p < n + 1 ensures IsPosted(items[p], dests[p], |items|, (parcels + [parcel])[p]) {
      if p < n {
        assert (parcels + [parcel])[p] == parcels[p];
      } else {
        assert (parcels + [parcel])[p] == parcel;
      }
    }
  }

  method PostAll<T(0)>(items: seq<seq<T>>, dests: seq<seq<int>>) returns (parcels: seq<Parcel<T>>)
    requires AreAddressed(items, dests)
    ensures ArePosted(items, dests, parcels, |items|)
  {
    parcels := [];
    for p := 0 to |items|
      invariant ArePosted(items, dests, parcels, p)
    {
      var parcel := Post(items[p], dests[p], |items|);
      OneMorePosted(items, dests, parcels, parcel, p);
      parcels := parcels + [parcel];
    }
  }
}
