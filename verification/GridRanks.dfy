// Division with remainder and greatest common divisors.
module Divisibility {
  import opened Integers

  // Euclid's algorithm.
  function Gcd(a: nat, b: nat): (g: nat)
    requires 0 < a || 0 < b
    ensures 0 < g
    decreases b
  {
    if b == 0 then a else Gcd(b, a % b)
  }

  // The gcd divides both numbers and is a combination of them.
  lemma {:induction false} Bezout(a: nat, b: nat) returns (p: nat, q: nat, u: int, v: int)
    requires 0 < a || 0 < b
    ensures a == p * Gcd(a, b) && b == q * Gcd(a, b)
    ensures u * a + v * b == Gcd(a, b)
    decreases b
  {
    if b == 0 {
      return 1, 0, 1, 0;
    }
    var k, r := DivMod(a, b);
    var p', q', u', v' := Bezout(b, r);
    EuclidStep(a, b, k, r, Gcd(b, r), p', q', u', v');
    p, q, u, v := MulAdd(k, p', q'), p', v', u' - k * v';
  }

  lemma DivMod(a: nat, b: nat) returns (k: nat, r: nat)
    requires 0 < b
    ensures a == k * b + r && r < b && r == a % b
  {
    k, r := a / b, a % b;
  }

  function MulAdd(k: nat, p: nat, q: nat): (m: nat)
    ensures m == k * p + q
  {
    k * p + q
  }

  lemma EuclidStep(a: int, b: int, k: int, r: int, g: int, p: int, q: int, u: int, v: int)
    requires a == k * b + r && b == p * g && r == q * g && u * b + v * r == g
    ensures a == (k * p + q) * g
    ensures v * a + (u - k * v) * b == g
  {
    assert k * b == (k * p) * g;
    assert v * a == v * (k * b) + v * r;
    assert v * (k * b) == (k * v) * b;
    assert (u - k * v) * b == u * b - (k * v) * b;
  }

  lemma GcdIsGreatest(a: nat, b: nat, d: nat, p: nat, q: nat)
    requires 0 < d && (0 < a || 0 < b) && a == p * d && b == q * d
    ensures d <= Gcd(a, b)
  {
    var _, _, u, v := Bezout(a, b);
    assert u * a == (u * p) * d && v * b == (v * q) * d;
    assert (u * p + v * q) * d == Gcd(a, b);
    PositiveMultiple(u * p + v * q, d, Gcd(a, b));
  }

  lemma PositiveMultiple(k: int, d: nat, g: nat)
    requires 0 < g && k * d == g
    ensures d <= g
  {
    Scales(k, 0, d);
    Scales(1, k, d);
  }

  // With g = u*h + v*w and h*w = g*l, a common multiple of h and w is a multiple of l.
  lemma CommonMultiple(h: int, w: int, g: int, l: int, u: int, v: int, x: int, a: int, b: int)
    requires 0 < g && u * h + v * w == g && h * w == g * l && x == a * h && x == b * w
    ensures x == (b * u + a * v) * l
  {
    var c := b * u + a * v;
    assert x * (u * h) == (b * w) * (u * h) == (b * u) * (h * w);
    assert x * (v * w) == (a * h) * (v * w) == (a * v) * (h * w);
    assert x * g == x * (u * h) + x * (v * w) == c * (h * w) == c * (g * l) == (c * l) * g;
    CancelFactor(x, c * l, g);
  }

  lemma CancelFactor(x: int, y: int, g: int)
    requires 0 < g && x * g == y * g
    ensures x == y
  {
    assert (x - y) * g == 0;
    Scales(1, x - y, g);
    Scales(x - y, -1, g);
  }
}

// Process grids: Grid.cpp.
module GridRanks {
  import opened Divisibility
  import opened Integers

  // DefaultHeight.

  // The integer part of the square root.
  function FloorSqrt(n: nat): (s: nat)
    ensures s * s <= n < (s + 1) * (s + 1)
  {
    if n == 0 then 0
    else
      var r := FloorSqrt(n - 1);
      if (r + 1) * (r + 1) <= n then r + 1 else r
  }

  method DefaultHeight(gridSize: nat) returns (gridHeight: nat)
    requires 0 < gridSize
    ensures 0 < gridHeight && gridSize % gridHeight == 0
    ensures FloorSqrt(gridSize) <= gridHeight
    ensures forall d :: FloorSqrt(gridSize) <= d < gridHeight ==> d == 0 || gridSize % d != 0
  {
    gridHeight := FloorSqrt(gridSize);
    SqrtBounds(gridSize);
    while gridSize % gridHeight != 0
      invariant FloorSqrt(gridSize) <= gridHeight <= gridSize && 0 < gridHeight
      invariant forall d :: FloorSqrt(gridSize) <= d < gridHeight ==> d == 0 || gridSize % d != 0
      decreases gridSize - gridHeight
    {
      DivModUnique(gridSize, gridSize, 1, 0);
      gridHeight := gridHeight + 1;
    }
  }

  lemma SqrtBounds(n: nat)
    requires 0 < n
    ensures 1 <= FloorSqrt(n) <= n
  {
    var s := FloorSqrt(n);
    Scales(1, s, s);
  }

  // The height and the width are the most nearly square pair of factors: no
  // divisor d of the size lies strictly between them.
  lemma MostNearlySquare(n: nat, height: nat, d: nat, e: nat)
    requires 0 < n && 0 < height && n % height == 0 && FloorSqrt(n) <= height
    requires forall c :: FloorSqrt(n) <= c < height ==> c == 0 || n % c != 0
    requires d * e == n
    ensures !(height < d < n / height) && !(n / height < d < height)
  {
    if d <= e {
      FactorsOutside(n, height, d, e);
    } else {
      FactorsOutside(n, height, e, d);
    }
  }

  lemma FactorsOutside(n: nat, height: nat, small: nat, large: nat)
    requires 0 < n && 0 < height && n % height == 0 && FloorSqrt(n) <= height
    requires forall c :: FloorSqrt(n) <= c < height ==> c == 0 || n % c != 0
    requires small * large == n && small <= large
    ensures small <= height <= large && small <= n / height <= large
  {
    FactorIsDivisor(large, small, n);
    AroundRoot(small, large, FloorSqrt(n));
    AroundFactors(small, large, height, n / height);
  }

  lemma AroundRoot(small: nat, large: nat, s: nat)
    requires small <= large && s * s <= small * large < (s + 1) * (s + 1)
    ensures small <= s <= large
  {
    ProductsGrow(s + 1, s + 1, small, large);
    ProductsGrow(small, large, s - 1, s - 1);
    assert (s - 1) * (s - 1) == s * s - 2 * s + 1;
  }

  lemma AroundFactors(small: nat, large: nat, height: nat, width: nat)
    requires 0 < height && small <= height <= large && small * large == width * height
    ensures small <= width <= large
  {
    ProductsGrow(width + 1, height, small, large);
    assert (width + 1) * height == width * height + height;
    ProductsGrow(small, large, height, width - 1);
    assert height * (width - 1) == width * height - height;
  }

  lemma ProductsGrow(a: int, b: int, c: int, d: int)
    ensures 0 <= a <= c && 0 <= b <= d ==> a * b <= c * d
  {
    if 0 <= a <= c && 0 <= b <= d {
      Scales(a, c, b);
      Scales(b, d, c);
    }
  }

  lemma FactorIsDivisor(d: nat, e: nat, n: nat)
    requires 0 < n && d * e == n
    ensures 0 < d && 0 < e && n % d == 0 && n / d == e
  {
    assert d == 0 ==> d * e == 0;
    assert e == 0 ==> d * e == 0;
    DivModUnique(n, d, e, 0);
  }

  // VC and VR ranks: column-major and row-major numbering of a height-by-width grid.

  function VCToVR(height: nat, width: nat, vcRank: nat): nat
    requires 0 < height
  {
    var mcRank, mrRank := vcRank % height, vcRank / height;
    mrRank + mcRank * width
  }

  function VRToVC(height: nat, width: nat, vrRank: nat): nat
    requires 0 < width
  {
    var mcRank, mrRank := vrRank / width, vrRank % width;
    mcRank + mrRank * height
  }

  // A rank below rows*cols is the same thing as a pair (row, col).
  lemma Numbering(rows: nat, cols: nat, row: nat, col: nat)
    requires row < rows && col < cols
    ensures row + col * rows < rows * cols
    ensures (row + col * rows) % rows == row && (row + col * rows) / rows == col
  {
    DivModUnique(row + col * rows, rows, col, row);
    Scales(col + 1, cols, rows);
    assert (col + 1) * rows == col * rows + rows;
  }

  lemma Denumbering(rows: nat, cols: nat, rank: nat)
    requires rank < rows * cols
    ensures 0 < rows && 0 < cols && rank % rows < rows && rank / rows < cols
    ensures rank == rank % rows + (rank / rows) * rows
  {
    assert rows == 0 ==> rows * cols == 0;
    assert cols == 0 ==> rows * cols == 0;
    Scales(cols, rank / rows, rows);
  }

  lemma VCAndVRAreInverse(height: nat, width: nat, rank: nat)
    requires rank < height * width
    ensures 0 < height && 0 < width
    ensures VCToVR(height, width, rank) < height * width && VRToVC(height, width, VCToVR(height, width, rank)) == rank
    ensures VRToVC(height, width, rank) < height * width && VCToVR(height, width, VRToVC(height, width, rank)) == rank
  {
    VCToVRAndBack(height, width, rank);
    VRToVCAndBack(height, width, rank);
  }

  lemma VCToVRAndBack(height: nat, width: nat, rank: nat)
    requires rank < height * width
    ensures 0 < height && 0 < width
    ensures VCToVR(height, width, rank) < height * width && VRToVC(height, width, VCToVR(height, width, rank)) == rank
  {
    Denumbering(height, width, rank);
    Numbering(width, height, rank / height, rank % height);
    assert height * width == width * height;
  }

  lemma VRToVCAndBack(height: nat, width: nat, rank: nat)
    requires rank < height * width
    ensures 0 < height && 0 < width
    ensures VRToVC(height, width, rank) < height * width && VCToVR(height, width, VRToVC(height, width, rank)) == rank
  {
    assert height * width == width * height;
    Denumbering(width, height, rank);
    Numbering(height, width, rank / width, rank % width);
  }

  // The diagonal walk of SetUpGrid.

  function GridGcd(height: nat, width: nat): (g: nat)
    requires 0 < height && 0 < width
  {
    Gcd(height, width)
  }

  // size / gcd, the number of positions on one diagonal.
  function GridLcm(height: nat, width: nat): nat
    requires 0 < height && 0 < width
  {
    height * width / GridGcd(height, width)
  }

  // Position (row, col) is the r-th of diagonal d.
  predicate IsOnDiagonal(height: nat, width: nat, d: nat, r: nat, row: nat, col: nat)
    requires 0 < height && 0 < width
  {
    d < GridGcd(height, width) && r < GridLcm(height, width) && r % height == row && (d + r) % width == col
  }

  lemma Factors(height: nat, width: nat) returns (p: nat, q: nat, u: int, v: int)
    requires 0 < height && 0 < width
    ensures var g, l := GridGcd(height, width), GridLcm(height, width);
            && height == p * g && width == q * g && u * height + v * width == g
            && 0 < p && 0 < q && 0 < l && l == q * height && l == p * width && g * l == height * width && g <= width
  {
    p, q, u, v := Bezout(height, width);
    var g := GridGcd(height, width);
    assert p == 0 ==> p * g == 0;
    assert q == 0 ==> q * g == 0;
    assert height * width == (q * height) * g;
    DivModUnique(height * width, g, q * height, 0);
    assert q * height == q * (p * g) == p * (q * g);
    Scales(1, q, g);
    Scales(1, height, q);
  }

  // Which diagonal a position is on.
  function DiagonalOf(height: nat, width: nat, row: int, col: int): (d: nat)
    requires 0 < height && 0 < width
    ensures d < GridGcd(height, width)
  {
    (col - row) % GridGcd(height, width)
  }

  lemma WalkFindsPosition(height: nat, width: nat, row: nat, col: nat) returns (r: nat)
    requires row < height && col < width
    ensures IsOnDiagonal(height, width, DiagonalOf(height, width, row, col), r, row, col)
  {
    var p, q, u, v := Factors(height, width);
    var g, l, d := GridGcd(height, width), GridLcm(height, width), DiagonalOf(height, width, row, col);
    var c := (col - row) / g;
    DivisionSplits(col - row, g);
    // a number that is row modulo height and col - d modulo width, reduced modulo l
    var j := row + (u * c) * height;
    r := j % l;
    ReducedResidue(row, height, u * c, q, l, j);
    BezoutTimes(height, width, u, v, g, c);
    assert (-(v * c)) * width == -((v * c) * width);
    ReducedResidueShifted(col, width, -(v * c), p, l, j, d);
  }

  lemma DivisionSplits(x: int, g: nat)
    requires 0 < g
    ensures x == (x / g) * g + x % g
  {
  }

  lemma BezoutTimes(height: int, width: int, u: int, v: int, g: int, c: int)
    requires u * height + v * width == g
    ensures (u * c) * height + (v * c) * width == c * g
  {
    assert (u * c) * height == c * (u * height);
    assert (v * c) * width == c * (v * width);
  }

  // Reducing modulo a multiple of m keeps the residue modulo m.
  lemma ReducedResidue(res: nat, m: nat, x: int, q: nat, l: nat, j: int)
    requires res < m && 0 < l && l == q * m && j == res + x * m
    ensures (j % l) % m == res
  {
    var t := j / l;
    assert j == t * l + j % l;
    assert t * l == (t * q) * m;
    assert (x - t * q) * m == x * m - (t * q) * m;
    DivModUnique(j % l, m, x - t * q, res);
  }

  lemma ReducedResidueShifted(res: nat, m: nat, x: int, q: nat, l: nat, j: int, d: nat)
    requires res < m && 0 < l && l == q * m && d + j == res + x * m
    ensures (d + j % l) % m == res
  {
    var t := j / l;
    assert j == t * l + j % l;
    assert t * l == (t * q) * m;
    assert (x - t * q) * m == x * m - (t * q) * m;
    DivModUnique(d + j % l, m, x - t * q, res);
  }

  // A position is on one diagonal only, and at one place of it.
  lemma PositionIsUnique(height: nat, width: nat, d1: nat, r1: nat, d2: nat, r2: nat, row: nat, col: nat)
    requires 0 < height && 0 < width
    requires IsOnDiagonal(height, width, d1, r1, row, col) && IsOnDiagonal(height, width, d2, r2, row, col)
    ensures d1 == d2 && r1 == r2
  {
    DiagonalIsDetermined(height, width, d1, r1, row, col);
    DiagonalIsDetermined(height, width, d2, r2, row, col);
    var p, q, u, v := Factors(height, width);
    var l := GridLcm(height, width);
    var a1, _ := DivMod(r1, height);
    var a2, _ := DivMod(r2, height);
    var b1, _ := DivMod(d1 + r1, width);
    var b2, _ := DivMod(d2 + r2, width);
    assert (a1 - a2) * height == a1 * height - a2 * height && (b1 - b2) * width == b1 * width - b2 * width;
    CommonMultiple(height, width, GridGcd(height, width), l, u, v, r1 - r2, a1 - a2, b1 - b2);
    var c := (b1 - b2) * u + (a1 - a2) * v;
    Scales(1, c, l);
    Scales(c, -1, l);
  }

  lemma DiagonalIsDetermined(height: nat, width: nat, d: nat, r: nat, row: nat, col: nat)
    requires 0 < height && 0 < width && IsOnDiagonal(height, width, d, r, row, col)
    ensures d == DiagonalOf(height, width, row, col)
  {
    var p, q, u, v := Factors(height, width);
    var a, _ := DivMod(r, height);
    var b, _ := DivMod(d + r, width);
    DifferenceOfResidues(GridGcd(height, width), p, q, a, b, d, r, row, col);
  }

  lemma DifferenceOfResidues(g: nat, p: nat, q: nat, a: int, b: int, d: nat, r: int, row: int, col: int)
    requires d < g && r == a * (p * g) + row && d + r == b * (q * g) + col
    ensures (col - row) % g == d
  {
    assert a * (p * g) == (a * p) * g && b * (q * g) == (b * q) * g;
    assert (a * p - b * q) * g == (a * p) * g - (b * q) * g;
    DivModUnique(col - row, g, a * p - b * q, d);
  }

  // The loop of SetUpGrid for the process in row mcRank and column mrRank.
  method DiagonalWalk(height: nat, width: nat, mcRank: nat, mrRank: nat) returns (mdPerpRank: nat, mdRank: nat)
    requires mcRank < height && mrRank < width
    ensures IsOnDiagonal(height, width, mdPerpRank, mdRank, mcRank, mrRank)
  {
    var lcm := height * width / GridGcd(height, width);
    mdPerpRank := DiagonalOf(height, width, mcRank, mrRank);
    mdRank := 0;
    ghost var r := WalkFindsPosition(height, width, mcRank, mrRank);
    var diagRank, row, col := 0, 0, mdPerpRank;
    StartOfWalk(height, width, mdPerpRank);
    for j := 0 to lcm
      invariant diagRank == j <= r
      invariant row == j % height && col == (mdPerpRank + j) % width
    {
      if row == mcRank && col == mrRank {
        mdRank := diagRank;
        return;
      }
      NextStep(j, height);
      NextStep(mdPerpRank + j, width);
      row := (row + 1) % height;
      col := (col + 1) % width;
      diagRank := diagRank + 1;
    }
  }

  lemma StartOfWalk(height: nat, width: nat, d: nat)
    requires 0 < height && 0 < width && d < GridGcd(height, width)
    ensures 0 % height == 0 && d % width == d
  {
    var p, q, u, v := Factors(height, width);
    DivModUnique(0, height, 0, 0);
    DivModUnique(d, width, 0, d);
  }

  lemma NextStep(j: nat, m: nat)
    requires 0 < m
    ensures (j % m + 1) % m == (j + 1) % m
  {
    var k, r := j / m, j % m;
    if r + 1 < m {
      DivModUnique(r + 1, m, 0, r + 1);
      DivModUnique(j + 1, m, k, r + 1);
    } else {
      DivModUnique(m, m, 1, 0);
      DivModUnique(j + 1, m, k + 1, 0);
    }
  }

  // CoordsToVC.

  datatype Dist = MC | MD | MR | VC | VR | STAR | CIRC

  function CoordsToVC(height: nat, width: nat, colDist: Dist, rowDist: Dist,
                      distRank: nat, crossRank: nat, redundantRank: nat): int
    requires 0 < height && 0 < width
  {
    if colDist == CIRC && rowDist == CIRC then crossRank
    else if colDist == MC && rowDist == MR then distRank
    else if (colDist == MC && rowDist == STAR) || (rowDist == MC && colDist == STAR) then
      distRank + redundantRank * height
    else if (colDist == MD && rowDist == STAR) || (rowDist == MD && colDist == STAR) then
      distRank % height + ((crossRank + distRank) % width) * height
    else if colDist == MR && rowDist == MC then VRToVC(height, width, distRank)
    else if (colDist == MR && rowDist == STAR) || (rowDist == MR && colDist == STAR) then
      redundantRank + distRank * height
    else if colDist == STAR && rowDist == STAR then redundantRank
    else if (colDist == STAR && rowDist == VC) || (rowDist == STAR && colDist == VC) then distRank
    else if (colDist == STAR && rowDist == VR) || (rowDist == STAR && colDist == VR) then
      VRToVC(height, width, distRank)
    else -1
  }

  // DistSize, CrossSize and RedundantSize of the distributed matrix classes.
  datatype Sizes = Sizes(dist: nat, cross: nat, redundant: nat)

  predicate IsSupported(colDist: Dist, rowDist: Dist) {
    || (colDist == CIRC && rowDist == CIRC)
    || (colDist == MC && rowDist == MR) || (colDist == MR && rowDist == MC)
    || (colDist == STAR && rowDist != CIRC)
    || (rowDist == STAR && colDist != CIRC)
  }

  // The distribution that is not STAR, or STAR.
  function Other(colDist: Dist, rowDist: Dist): Dist {
    if colDist == STAR then rowDist else colDist
  }

  function SizesOf(height: nat, width: nat, colDist: Dist, rowDist: Dist): Sizes
    requires 0 < height && 0 < width && IsSupported(colDist, rowDist)
  {
    var size := height * width;
    if colDist == CIRC then Sizes(1, size, 1)
    else if colDist != STAR && rowDist != STAR then Sizes(size, 1, 1)
    else match Other(colDist, rowDist)
      case MC => Sizes(height, 1, width)
      case MR => Sizes(width, 1, height)
      case MD => Sizes(GridLcm(height, width), GridGcd(height, width), 1)
      case STAR => Sizes(1, 1, size)
      case _ => Sizes(size, 1, 1)
  }

  datatype Coords = Coords(dist: nat, cross: nat, redundant: nat)

  predicate InRange(c: Coords, s: Sizes) {
    c.dist < s.dist && c.cross < s.cross && c.redundant < s.redundant
  }

  function At(height: nat, width: nat, colDist: Dist, rowDist: Dist, c: Coords): int
    requires 0 < height && 0 < width
  {
    CoordsToVC(height, width, colDist, rowDist, c.dist, c.cross, c.redundant)
  }

  // The coordinates of the process with VC rank vc.
  ghost function CoordsOf(height: nat, width: nat, colDist: Dist, rowDist: Dist, vc: nat): Coords
    requires 0 < height && 0 < width && vc < height * width && IsSupported(colDist, rowDist)
  {
    if colDist == CIRC then Coords(0, vc, 0)
    else if colDist == MC && rowDist == MR then Coords(vc, 0, 0)
    else if colDist == MR && rowDist == MC then Coords(VCToVR(height, width, vc), 0, 0)
    else match Other(colDist, rowDist)
      case MC => Coords(vc % height, 0, vc / height)
      case MR => Coords(vc / height, 0, vc % height)
      case MD => DiagonalCoords(height, width, vc)
      case STAR => Coords(0, 0, vc)
      case VC => Coords(vc, 0, 0)
      case VR => Coords(VCToVR(height, width, vc), 0, 0)
      case CIRC => Coords(0, 0, 0)
  }

  ghost function DiagonalCoords(height: nat, width: nat, vc: nat): (c: Coords)
    requires 0 < height && 0 < width && vc < height * width
    ensures c.redundant == 0 && IsOnDiagonal(height, width, c.cross, c.dist, vc % height, vc / height)
  {
    var row, col := vc % height, vc / height;
    Denumbering(height, width, vc);
    assert exists r: nat :: IsOnDiagonal(height, width, DiagonalOf(height, width, row, col), r, row, col) by {
      var r := WalkFindsPosition(height, width, row, col);
    }
    var r: nat :| IsOnDiagonal(height, width, DiagonalOf(height, width, row, col), r, row, col);
    Coords(r, DiagonalOf(height, width, row, col), 0)
  }

  // For every supported pair of distributions CoordsToVC is a bijection between
  // the coordinates in range and the ranks 0..size-1; CoordsOf is its inverse.
  lemma CoordsToVCIsBijection(height: nat, width: nat, colDist: Dist, rowDist: Dist)
    requires 0 < height && 0 < width && IsSupported(colDist, rowDist)
    ensures forall c: Coords :: InRange(c, SizesOf(height, width, colDist, rowDist)) ==>
              && 0 <= At(height, width, colDist, rowDist, c) < height * width
              && CoordsOf(height, width, colDist, rowDist, At(height, width, colDist, rowDist, c)) == c
    ensures forall vc: nat :: vc < height * width ==>
              && InRange(CoordsOf(height, width, colDist, rowDist, vc), SizesOf(height, width, colDist, rowDist))
              && At(height, width, colDist, rowDist, CoordsOf(height, width, colDist, rowDist, vc)) == vc
  {
    forall c: Coords | InRange(c, SizesOf(height, width, colDist, rowDist))
      ensures 0 <= At(height, width, colDist, rowDist, c) < height * width
      ensures CoordsOf(height, width, colDist, rowDist, At(height, width, colDist, rowDist, c)) == c
    {
      ThereAndBack(height, width, colDist, rowDist, c);
    }
    forall vc: nat | vc < height * width
      ensures InRange(CoordsOf(height, width, colDist, rowDist, vc), SizesOf(height, width, colDist, rowDist))
      ensures At(height, width, colDist, rowDist, CoordsOf(height, width, colDist, rowDist, vc)) == vc
    {
      BackAndThere(height, width, colDist, rowDist, vc);
    }
  }

  lemma ThereAndBack(height: nat, width: nat, colDist: Dist, rowDist: Dist, c: Coords)
    requires 0 < height && 0 < width && IsSupported(colDist, rowDist)
    requires InRange(c, SizesOf(height, width, colDist, rowDist))
    ensures 0 <= At(height, width, colDist, rowDist, c) < height * width
    ensures CoordsOf(height, width, colDist, rowDist, At(height, width, colDist, rowDist, c)) == c
  {
    if colDist == MR && rowDist == MC {
      VRThereAndBack(height, width, c.dist);
    } else if colDist == STAR || rowDist == STAR {
      match Other(colDist, rowDist)
      case MC => MCThereAndBack(height, width, colDist, rowDist, c);
      case MR => MRThereAndBack(height, width, colDist, rowDist, c);
      case MD => MDThereAndBack(height, width, colDist, rowDist, c);
      case VR => VRThereAndBack(height, width, c.dist);
      case _ =>
    }
  }

  lemma MCThereAndBack(height: nat, width: nat, colDist: Dist, rowDist: Dist, c: Coords)
    requires 0 < height && 0 < width && IsSupported(colDist, rowDist)
    requires InRange(c, SizesOf(height, width, colDist, rowDist))
    requires (colDist == STAR || rowDist == STAR) && Other(colDist, rowDist) == MC
    ensures 0 <= At(height, width, colDist, rowDist, c) < height * width
    ensures CoordsOf(height, width, colDist, rowDist, At(height, width, colDist, rowDist, c)) == c
  {
    Numbering(height, width, c.dist, c.redundant);
  }

  lemma MRThereAndBack(height: nat, width: nat, colDist: Dist, rowDist: Dist, c: Coords)
    requires 0 < height && 0 < width && IsSupported(colDist, rowDist)
    requires InRange(c, SizesOf(height, width, colDist, rowDist))
    requires (colDist == STAR || rowDist == STAR) && Other(colDist, rowDist) == MR
    ensures 0 <= At(height, width, colDist, rowDist, c) < height * width
    ensures CoordsOf(height, width, colDist, rowDist, At(height, width, colDist, rowDist, c)) == c
  {
    Numbering(height, width, c.redundant, c.dist);
  }

  lemma MDThereAndBack(height: nat, width: nat, colDist: Dist, rowDist: Dist, c: Coords)
    requires 0 < height && 0 < width && IsSupported(colDist, rowDist)
    requires InRange(c, SizesOf(height, width, colDist, rowDist))
    requires (colDist == STAR || rowDist == STAR) && Other(colDist, rowDist) == MD
    ensures 0 <= At(height, width, colDist, rowDist, c) < height * width
    ensures CoordsOf(height, width, colDist, rowDist, At(height, width, colDist, rowDist, c)) == c
  {
    DiagonalThereAndBack(height, width, c.cross, c.dist);
  }

  lemma VRThereAndBack(height: nat, width: nat, rank: nat)
    requires 0 < height && 0 < width && rank < height * width
    ensures VRToVC(height, width, rank) < height * width && VCToVR(height, width, VRToVC(height, width, rank)) == rank
  {
    VCAndVRAreInverse(height, width, rank);
  }

  lemma DiagonalThereAndBack(height: nat, width: nat, d: nat, r: nat)
    requires 0 < height && 0 < width && d < GridGcd(height, width) && r < GridLcm(height, width)
    ensures var vc := r % height + ((d + r) % width) * height;
            vc < height * width && DiagonalCoords(height, width, vc) == Coords(r, d, 0)
  {
    var row, col := r % height, (d + r) % width;
    Numbering(height, width, row, col);
    var c := DiagonalCoords(height, width, row + col * height);
    PositionIsUnique(height, width, d, r, c.cross, c.dist, row, col);
  }

  lemma BackAndThere(height: nat, width: nat, colDist: Dist, rowDist: Dist, vc: nat)
    requires 0 < height && 0 < width && IsSupported(colDist, rowDist) && vc < height * width
    ensures InRange(CoordsOf(height, width, colDist, rowDist, vc), SizesOf(height, width, colDist, rowDist))
    ensures At(height, width, colDist, rowDist, CoordsOf(height, width, colDist, rowDist, vc)) == vc
  {
    Denumbering(height, width, vc);
    VCAndVRAreInverse(height, width, vc);
  }

  // In every other case the result is -1, and in no supported one.
  lemma MinusOneIffUnsupported(height: nat, width: nat, colDist: Dist, rowDist: Dist, c: Coords)
    requires 0 < height && 0 < width
    ensures At(height, width, colDist, rowDist, c) == -1 <==> !IsSupported(colDist, rowDist)
  {
  }

  // What each process contributes to diagsAndRanks, in VC order: place by place
  // the pair that CoordsToVC maps to the rank.
  method GatherDiagonals(height: nat, width: nat) returns (diagsAndRanks: seq<nat>)
    requires 0 < height && 0 < width
    ensures |diagsAndRanks| == 2 * (height * width)
    ensures forall vc: nat :: vc < height * width ==> IsRecorded(height, width, diagsAndRanks, vc)
  {
    diagsAndRanks := [];
    var size := height * width;
    for vc := 0 to size
      invariant |diagsAndRanks| == 2 * vc
      invariant forall k: nat :: k < vc ==> IsRecorded(height, width, diagsAndRanks, k)
    {
      Denumbering(height, width, vc);
      var d, r := DiagonalWalk(height, width, vc % height, vc / height);
      RecordedAppend(height, width, diagsAndRanks, vc, d, r);
      diagsAndRanks := diagsAndRanks + [d, r];
    }
  }

  ghost predicate IsRecorded(height: nat, width: nat, diagsAndRanks: seq<nat>, vc: nat)
    requires 0 < height && 0 < width && 2 * vc + 1 < |diagsAndRanks|
  {
    var c := Coords(diagsAndRanks[2*vc+1], diagsAndRanks[2*vc], 0);
    InRange(c, SizesOf(height, width, MD, STAR)) && At(height, width, MD, STAR, c) == vc
  }

  lemma RecordedAppend(height: nat, width: nat, ds: seq<nat>, vc: nat, d: nat, r: nat)
    requires 0 < height && 0 < width && |ds| == 2 * vc && vc < height * width
    requires forall k: nat :: k < vc ==> IsRecorded(height, width, ds, k)
    requires IsOnDiagonal(height, width, d, r, vc % height, vc / height)
    ensures forall k: nat :: k < vc + 1 ==> IsRecorded(height, width, ds + [d, r], k)
  {
    var es := ds + [d, r];
    Denumbering(height, width, vc);
    forall k: nat | k < vc + 1 ensures IsRecorded(height, width, es, k) {
      if k < vc {
        assert es[2*k] == ds[2*k] && es[2*k+1] == ds[2*k+1];
        assert IsRecorded(height, width, ds, k);
      } else {
        assert es[2*k] == d && es[2*k+1] == r;
      }
    }
  }

  // What is recorded for a position is the diagonal it is on and its place there.
  lemma RecordedIsDiagonal(height: nat, width: nat, ds: seq<nat>, vc: nat, row: nat, col: nat, d: nat, r: nat)
    requires 0 < height && 0 < width && 2 * vc + 1 < |ds| && IsRecorded(height, width, ds, vc)
    requires row < height && col < width && vc == row + col * height && IsOnDiagonal(height, width, d, r, row, col)
    ensures ds[2*vc] == d && ds[2*vc+1] == r
  {
    Numbering(height, width, row, col);
    RecordedIsOnDiagonal(height, width, ds[2*vc], ds[2*vc+1], vc);
    PositionIsUnique(height, width, ds[2*vc], ds[2*vc+1], d, r, row, col);
  }

  lemma RecordedIsOnDiagonal(height: nat, width: nat, d: nat, r: nat, vc: nat)
    requires 0 < height && 0 < width && InRange(Coords(r, d, 0), SizesOf(height, width, MD, STAR))
    requires At(height, width, MD, STAR, Coords(r, d, 0)) == vc
    ensures IsOnDiagonal(height, width, d, r, vc % height, vc / height)
  {
    Numbering(height, width, r % height, (d + r) % width);
  }
}
