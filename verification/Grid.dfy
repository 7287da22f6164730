// The Grid object of one process: its dimensions, its ranks and the table of all
// processes' diagonals. Grid.cpp.
module ProcessGrid {
  import opened Divisibility
  import opened GridRanks
  import opened Integers

  class Grid {
    const size: nat
    const rank: nat
    const colMajor: bool
    var height: nat
    var gcd: nat
    var mcRank: nat
    var mrRank: nat
    var vcRank: nat
    var vrRank: nat
    var mdRank: nat
    var mdPerpRank: nat
    var diagsAndRanks: seq<nat>

    function Width(): nat
      requires 0 < height
      reads this
    {
      size / height
    }

    ghost predicate Valid()
      reads this
    {
      && 0 < height && 0 < Width() && size == height * Width()
      && gcd == GridGcd(height, Width())
      && AreRanks(rank, colMajor, height, Width(), mcRank, mrRank, vcRank, vrRank)
      && IsOnDiagonal(height, Width(), mdPerpRank, mdRank, mcRank, mrRank)
      && IsTable(height, Width(), diagsAndRanks)
    }

    // The constructor, without the SetUpGrid at its end.
    constructor (size: nat, rank: nat, height: int, colMajor: bool)
      requires rank < size
      ensures this.size == size && this.rank == rank && this.colMajor == colMajor
      ensures height > 0 ==> this.height == height
      ensures height <= 0 ==> 0 < this.height && size % this.height == 0
      ensures height <= 0 ==> forall d: nat, e: nat :: d * e == size ==>
                !(this.height < d < size / this.height) && !(size / this.height < d < this.height)
    {
      this.size, this.rank, this.colMajor := size, rank, colMajor;
      this.gcd, this.mcRank, this.mrRank, this.vcRank, this.vrRank := 0, 0, 0, 0, 0;
      this.mdRank, this.mdPerpRank, this.diagsAndRanks := 0, 0, [];
      var h := height;
      if h <= 0 {
        h := DefaultHeight(size);
        forall d: nat, e: nat | d * e == size ensures !(h < d < size / h) && !(size / h < d < h) {
          MostNearlySquare(size, h, d, e);
        }
      }
      this.height := h;
    }

    // False stands for the LogicError: the height does not divide the size.
    method SetUpGrid() returns (ok: bool)
      requires rank < size && 0 < height
      modifies this
      ensures height == old(height)
      ensures ok <==> size % height == 0
      ensures ok ==> Valid()
    {
      if size % height != 0 {
        return false;
      }
      var width := size / height;
      FactorsOf(size, height);
      var mc, mr, vc, vr := Ranks(rank, colMajor, height, width);
      var d, r := DiagonalWalk(height, width, mc, mr);
      var table := GatherDiagonals(height, width);
      gcd := Gcd(height, width);
      mcRank, mrRank, vcRank, vrRank := mc, mr, vc, vr;
      mdPerpRank, mdRank, diagsAndRanks := d, r, table;
      return true;
    }

    function Diag(vc: nat): nat
      requires Valid() && vc < size
      reads this
    {
      diagsAndRanks[2 * vc]
    }

    function DiagRank(vc: nat): nat
      requires Valid() && vc < size
      reads this
    {
      diagsAndRanks[2 * vc + 1]
    }

    // The table inverts the MD case of CoordsToVC, and a process finds its own
    // diagonal and diagonal rank in it.
    lemma DiagsInvertMD(vc: nat)
      requires Valid() && vc < size
      ensures Diag(vc) < gcd && DiagRank(vc) < size / gcd
      ensures CoordsToVC(height, Width(), MD, STAR, DiagRank(vc), Diag(vc), 0) == vc
      ensures vc == vcRank ==> Diag(vc) == mdPerpRank && DiagRank(vc) == mdRank
    {
      assert IsRecorded(height, Width(), diagsAndRanks, vc);
      if vc == vcRank {
        RecordedIsDiagonal(height, Width(), diagsAndRanks, vc, mcRank, mrRank, mdPerpRank, mdRank);
      }
    }

    // The coordinates of this process in a pair of distributions: its ranks in the
    // communicators over which a matrix is distributed, of which each process holds
    // something else, and over which it is replicated.
    function CoordsIn(colDist: Dist, rowDist: Dist): Coords
      requires IsSupported(colDist, rowDist)
      reads this
    {
      if colDist == CIRC then Coords(0, vcRank, 0)
      else if colDist == MC && rowDist == MR then Coords(vcRank, 0, 0)
      else if colDist == MR && rowDist == MC then Coords(vrRank, 0, 0)
      else match Other(colDist, rowDist)
        case MC => Coords(mcRank, 0, mrRank)
        case MR => Coords(mrRank, 0, mcRank)
        case MD => Coords(mdRank, mdPerpRank, 0)
        case STAR => Coords(0, 0, vcRank)
        case VC => Coords(vcRank, 0, 0)
        case VR => Coords(vrRank, 0, 0)
        case CIRC => Coords(0, 0, 0)
    }

    // Whatever the distributions, CoordsToVC maps the ranks of a process to its VC rank.
    lemma CoordsToVCFindsRank(colDist: Dist, rowDist: Dist)
      requires Valid() && IsSupported(colDist, rowDist)
      ensures var c := CoordsIn(colDist, rowDist);
              CoordsToVC(height, Width(), colDist, rowDist, c.dist, c.cross, c.redundant) == vcRank
    {
      RanksAgree();
    }

    // The two numberings of the processes agree on every process.
    lemma RanksAgree()
      requires Valid()
      ensures VCToVR(height, Width(), vcRank) == vrRank && VRToVC(height, Width(), vrRank) == vcRank
    {
      Numbering(height, Width(), mcRank, mrRank);
      Numbering(Width(), height, mrRank, mcRank);
    }
  }

  // Consecutive processes: in column-major order the next one is one row down, or at
  // the top of the next column; else one column to the right, or at the left of the
  // next row.
  lemma NextProcess(g: Grid, h: Grid)
    requires g.Valid() && h.Valid() && g.size == h.size && g.height == h.height && g.colMajor == h.colMajor
    requires h.rank == g.rank + 1
    ensures g.colMajor ==> IsNext(g.height, g.mcRank, g.mrRank, h.mcRank, h.mrRank)
    ensures !g.colMajor ==> IsNext(g.Width(), g.mrRank, g.mcRank, h.mrRank, h.mcRank)
  {
    if g.colMajor {
      NextInOrder(g.height, g.mcRank, g.mrRank, h.mcRank, h.mrRank);
    } else {
      NextInOrder(g.Width(), g.mrRank, g.mcRank, h.mrRank, h.mcRank);
    }
  }

  predicate IsNext(length: nat, row: nat, col: nat, row': nat, col': nat) {
    (row' == row + 1 && col' == col) || (row + 1 == length && row' == 0 && col' == col + 1)
  }

  lemma NextInOrder(length: nat, row: nat, col: nat, row': nat, col': nat)
    requires row < length && row' < length && row' + col' * length == row + col * length + 1
    ensures IsNext(length, row, col, row', col')
  {
    if row + 1 < length {
      DivModUnique(row + col * length + 1, length, col, row + 1);
    } else {
      assert (col + 1) * length == col * length + length;
      DivModUnique(row + col * length + 1, length, col + 1, 0);
    }
    DivModUnique(row + col * length + 1, length, col', row');
  }

  // Row and column in the grid, and the column-major and row-major numbers.
  ghost predicate AreRanks(rank: nat, colMajor: bool, height: nat, width: nat, mc: nat, mr: nat, vc: nat, vr: nat) {
    && mc < height && mr < width
    && vc == mc + mr * height && vr == mr + mc * width
    && (if colMajor then vc == rank else vr == rank)
  }

  ghost predicate IsTable(height: nat, width: nat, diagsAndRanks: seq<nat>)
    requires 0 < height && 0 < width
  {
    && |diagsAndRanks| == 2 * (height * width)
    && forall vc: nat :: vc < height * width ==> IsRecorded(height, width, diagsAndRanks, vc)
  }

  // The ranks in the communicators that are cut out of the Cartesian one, whose
  // numbering is row-major: width by height in column-major order, else height
  // by width.
  method Ranks(rank: nat, colMajor: bool, height: nat, width: nat) returns (mc: nat, mr: nat, vc: nat, vr: nat)
    requires rank < height * width
    ensures AreRanks(rank, colMajor, height, width, mc, mr, vc, vr)
  {
    if colMajor {
      Denumbering(height, width, rank);
      mc, mr := rank % height, rank / height;
    } else {
      assert height * width == width * height;
      Denumbering(width, height, rank);
      mc, mr := rank / width, rank % width;
    }
    vc := mc + height * mr;
    vr := mr + width * mc;
  }

  lemma FactorsOf(size: nat, height: nat)
    requires 0 < size && 0 < height && size % height == 0
    ensures 0 < size / height && size == height * (size / height)
  {
    var width := size / height;
    assert size == width * height == height * width;
    FactorIsDivisor(height, width, size);
  }
}
