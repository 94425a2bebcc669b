/**
 * The value view of one mesh-tally block: its bin boundaries, its counts and its
 * dense data array, together with the strides that address that array and the
 * line and plane slices that callers take of it.
 *
 * The data array of the program has shape [ng][nx][ny][nz][5]; here it is one flat
 * row-major buffer, and cell [e][x][y][z][k] lives at Offset(nx, ny, nz, e, x, y, z, k).
 * Channels: 0 = X centre, 1 = Y centre, 2 = Z centre, 3 = result value, 4 = relative error.
 */
module Grid {
  import opened Outcomes

  datatype Axis = X | Y | Z

  /** A position on the spatial mesh, one bin index per axis. */
  datatype Point = Point(x: int, y: int, z: int)

  /** Everything a block holds. `binLims` is the four-entry list of first boundaries. */
  datatype Block = Block(
    eBins: seq<real>, xBins: seq<real>, yBins: seq<real>, zBins: seq<real>,
    binLims: seq<real>,
    nx: nat, ny: nat, nz: nat, ng: nat,
    data: seq<real>)

  const ValueChannel := 3
  const ErrorChannel := 4

  /** A block as the constructor leaves it: nothing read, nothing sized. */
  const EmptyBlock := Block([], [], [], [], [0.0, 0.0, 0.0, 0.0], 0, 0, 0, 0, [])

  function CellCount(b: Block): int {
    b.ng * b.nx * b.ny * b.nz
  }

  /** The data buffer holds exactly five channels per cell of the sized shape. */
  predicate WellFormed(b: Block) {
    |b.binLims| == 4 && |b.data| == CellCount(b) * 5
  }

  function Count(b: Block, a: Axis): nat {
    match a
    case X => b.nx
    case Y => b.ny
    case Z => b.nz
  }

  function AxisBins(b: Block, a: Axis): seq<real> {
    match a
    case X => b.xBins
    case Y => b.yBins
    case Z => b.zBins
  }

  /** The channel holding the cell centre along axis `a`. */
  function Channel(a: Axis): nat {
    match a
    case X => 0
    case Y => 1
    case Z => 2
  }

  // ---------------------------------------------------------------- strides

  /** Row number of cell (e, x, y, z) when cells are listed energy-major, then x, then y, then z. */
  function Flat(nx: int, ny: int, nz: int, e: int, x: int, y: int, z: int): int {
    ((e * nx + x) * ny + y) * nz + z
  }

  function Offset(nx: int, ny: int, nz: int, e: int, x: int, y: int, z: int, k: int): int {
    Flat(nx, ny, nz, e, x, y, z) * 5 + k
  }

  lemma MulSucc(a: int, n: int)
    ensures (a + 1) * n == a * n + n
  {
  }

  lemma MulNonNegative(a: int, b: int)
    requires 0 <= a && 0 <= b
    ensures 0 <= a * b
  {
  }

  /** One level of the row-major stride: an index below m, scaled by n, plus an offset below n. */
  lemma {:induction false} StrideBound(a: int, m: int, c: int, n: int)
    requires 0 <= a < m && 0 <= c < n
    ensures 0 <= a * n + c < m * n
  {
    MulNonNegative(a, n);
    MulNonNegative(m - a - 1, n);
    assert m * n == (a + 1) * n + (m - a - 1) * n;
    MulSucc(a, n);
  }

  /** Every in-range cell has a row number below ng*nx*ny*nz. */
  lemma {:induction false} FlatBound(ng: int, nx: int, ny: int, nz: int, e: int, x: int, y: int, z: int)
    requires 0 <= e < ng && 0 <= x < nx && 0 <= y < ny && 0 <= z < nz
    ensures 0 <= Flat(nx, ny, nz, e, x, y, z) < ng * nx * ny * nz
  {
    StrideBound(e, ng, x, nx);
    StrideBound(e * nx + x, ng * nx, y, ny);
    StrideBound((e * nx + x) * ny + y, ng * nx * ny, z, nz);
  }

  /** Stepping past the last bin of one axis is stepping to the first bin of the next index up. */
  lemma FlatCarry(nx: int, ny: int, nz: int, e: int, x: int, y: int)
    ensures Flat(nx, ny, nz, e, x, y, nz) == Flat(nx, ny, nz, e, x, y + 1, 0)
    ensures Flat(nx, ny, nz, e, x, ny, 0) == Flat(nx, ny, nz, e, x + 1, 0, 0)
    ensures Flat(nx, ny, nz, e, nx, 0, 0) == Flat(nx, ny, nz, e + 1, 0, 0, 0)
  {
    MulSucc((e * nx + x) * ny + y, nz);
    MulSucc(e * nx + x, ny);
    MulSucc(e, nx);
  }

  /** An index below n, added to a multiple of n, is recovered together with the multiple. */
  lemma {:induction false} StrideUnique(a: int, c: int, a2: int, c2: int, n: int)
    requires 0 <= c < n && 0 <= c2 < n && a * n + c == a2 * n + c2
    ensures a == a2 && c == c2
  {
    if a < a2 {
      MulNonNegative(a2 - a - 1, n);
      assert a2 * n == (a + 1) * n + (a2 - a - 1) * n;
      MulSucc(a, n);
      assert false;
    } else if a2 < a {
      MulNonNegative(a - a2 - 1, n);
      assert a * n == (a2 + 1) * n + (a - a2 - 1) * n;
      MulSucc(a2, n);
      assert false;
    }
  }

  /** Distinct cells of the grid have distinct row numbers. */
  lemma {:induction false} FlatInjective(nx: int, ny: int, nz: int, e: int, x: int, y: int, z: int,
                                          e2: int, x2: int, y2: int, z2: int)
    requires 0 <= x < nx && 0 <= y < ny && 0 <= z < nz
    requires 0 <= x2 < nx && 0 <= y2 < ny && 0 <= z2 < nz
    requires Flat(nx, ny, nz, e, x, y, z) == Flat(nx, ny, nz, e2, x2, y2, z2)
    ensures e == e2 && x == x2 && y == y2 && z == z2
  {
    StrideUnique((e * nx + x) * ny + y, z, (e2 * nx + x2) * ny + y2, z2, nz);
    StrideUnique(e * nx + x, y, e2 * nx + x2, y2, ny);
    StrideUnique(e, x, e2, x2, nx);
  }

  lemma CellCountNonNegative(b: Block)
    ensures 0 <= CellCount(b)
  {
    MulNonNegative(b.ng, b.nx);
    MulNonNegative(b.ng * b.nx, b.ny);
    MulNonNegative(b.ng * b.nx * b.ny, b.nz);
  }

  // ---------------------------------------------------------------- cells

  predicate InGrid(b: Block, e: int, p: Point) {
    0 <= e < b.ng && 0 <= p.x < b.nx && 0 <= p.y < b.ny && 0 <= p.z < b.nz
  }

  /** Channel k of cell (e, p). */
  function Cell(b: Block, e: int, p: Point, k: int): real
    requires WellFormed(b) && InGrid(b, e, p) && 0 <= k < 5
  {
    FlatBound(b.ng, b.nx, b.ny, b.nz, e, p.x, p.y, p.z);
    b.data[Offset(b.nx, b.ny, b.nz, e, p.x, p.y, p.z, k)]
  }

  // ---------------------------------------------------------------- sizing

  /** The counts follow the boundary lists (one energy group more than energy
      boundaries) and the data buffer is reallocated, all zero. */
  function Size(b: Block): (r: Block)
    ensures r.nx == |b.xBins| && r.ny == |b.yBins| && r.nz == |b.zBins|
    ensures r.ng == |b.eBins| + 1
    ensures r.eBins == b.eBins && r.xBins == b.xBins && r.yBins == b.yBins && r.zBins == b.zBins
    ensures r.binLims == b.binLims
    ensures |r.data| == CellCount(r) * 5
    ensures forall i :: 0 <= i < |r.data| ==> r.data[i] == 0.0
  {
    var r := b.(nx := |b.xBins|, ny := |b.yBins|, nz := |b.zBins|, ng := |b.eBins| + 1);
    CellCountNonNegative(r);
    r.(data := seq(CellCount(r) * 5, _ => 0.0))
  }

  /** Sizing twice with unchanged boundary lists gives the same block as sizing once. */
  lemma SizeIdempotent(b: Block)
    ensures Size(Size(b)) == Size(b)
  {
  }

  /** Every channel of every cell of a freshly sized block is zero. */
  lemma {:induction false} SizedCellsAreZero(b: Block, e: int, p: Point, k: int)
    requires |b.binLims| == 4
    requires InGrid(Size(b), e, p) && 0 <= k < 5
    ensures WellFormed(Size(b)) && Cell(Size(b), e, p, k) == 0.0
  {
    var r := Size(b);
    FlatBound(r.ng, r.nx, r.ny, r.nz, e, p.x, p.y, p.z);
  }

  // ---------------------------------------------------------------- slices

  datatype SliceError =
    | EmptyAxis        // a bin lookup on an axis with no boundaries
    | NotPlanar        // a plane requested across an axis with at most one bin
    | IndexOutOfRange  // a bin index outside the array

  /** An index the array accepts: negative indices count from the end. */
  predicate InAxis(i: int, n: int) {
    -n <= i < n
  }

  function Wrap(i: int, n: int): int {
    if i < 0 then i + n else i
  }

  /** The two axes other than `a`, in x, y, z order. */
  function Others(a: Axis): (Axis, Axis) {
    match a
    case X => (Y, Z)
    case Y => (X, Z)
    case Z => (X, Y)
  }

  /** The point whose coordinate on axis `a` is `c` and whose other two coordinates,
      in x, y, z order, are `u` and `w`. */
  function Place(a: Axis, c: int, u: int, w: int): (p: Point)
    ensures match a
      case X => p.x == c && p.y == u && p.z == w
      case Y => p.x == u && p.y == c && p.z == w
      case Z => p.x == u && p.y == w && p.z == c
  {
    match a
    case X => Point(c, u, w)
    case Y => Point(u, c, w)
    case Z => Point(u, w, c)
  }

  /** A point with coordinate c on axis `a` and in-range coordinates on the other two axes is a cell. */
  lemma PlaceInGrid(b: Block, a: Axis, c: int, u: int, w: int, e: int)
    requires 0 <= e < b.ng && 0 <= c < Count(b, a)
    requires 0 <= u < Count(b, Others(a).0) && 0 <= w < Count(b, Others(a).1)
    ensures InGrid(b, e, Place(a, c, u, w))
  {
  }

  datatype LineSlice = LineSlice(s: seq<real>, v: seq<real>)

  datatype PlaneSlice = PlaneSlice(s: seq<seq<real>>, t: seq<seq<real>>, v: seq<seq<real>>, u: seq<seq<real>>)

  /** Channel k of the cells along axis `free`, the other axes at bins f1, f2 (x, y, z order). */
  function LineChannel(b: Block, free: Axis, f1: int, f2: int, e: int, k: int): (s: seq<real>)
    requires WellFormed(b) && 0 <= k < 5
    requires Count(b, free) > 0 ==>
      0 <= e < b.ng && 0 <= f1 < Count(b, Others(free).0) && 0 <= f2 < Count(b, Others(free).1)
    ensures |s| == Count(b, free)
    ensures forall i :: 0 <= i < |s| ==>
      InGrid(b, e, Place(free, i, f1, f2)) && s[i] == Cell(b, e, Place(free, i, f1, f2), k)
  {
    seq(Count(b, free), i requires 0 <= i < Count(b, free) =>
      PlaceInGrid(b, free, i, f1, f2, e);
      Cell(b, e, Place(free, i, f1, f2), k))
  }

  /** Channel k of the cells with axis `fixed` at bin f: rows along the first other axis,
      columns along the second. */
  function PlaneChannel(b: Block, fixed: Axis, f: int, e: int, k: int): (m: seq<seq<real>>)
    requires WellFormed(b) && 0 <= k < 5
    requires 0 <= e < b.ng && 0 <= f < Count(b, fixed)
    ensures |m| == Count(b, Others(fixed).0)
    ensures forall i :: 0 <= i < |m| ==> |m[i]| == Count(b, Others(fixed).1)
    ensures forall i, j :: 0 <= i < |m| && 0 <= j < Count(b, Others(fixed).1) ==>
      InGrid(b, e, Place(fixed, f, i, j)) && m[i][j] == Cell(b, e, Place(fixed, f, i, j), k)
  {
    var n0, n1 := Count(b, Others(fixed).0), Count(b, Others(fixed).1);
    seq(n0, i requires 0 <= i < n0 =>
      seq(n1, j requires 0 <= j < n1 =>
        PlaceInGrid(b, fixed, f, i, j, e);
        Cell(b, e, Place(fixed, f, i, j), k)))
  }

  /** The fixed indices of a line along `free` are accepted by the array. */
  predicate LineIndicesOk(b: Block, free: Axis, f1: int, f2: int, e: int) {
    InAxis(e, b.ng) && InAxis(f1, Count(b, Others(free).0)) && InAxis(f2, Count(b, Others(free).1))
  }

  /** The line of cells along axis `free` with the other two axes at bins f1, f2 (x, y, z
      order) and energy group e: the centres along `free` and the result values. The array
      is only indexed when the line is not empty, so only then can an index be rejected. */
  function LineAlong(b: Block, free: Axis, f1: int, f2: int, e: int): (r: Result<LineSlice, SliceError>)
    requires WellFormed(b)
    ensures r.Success? <==> Count(b, free) == 0 || LineIndicesOk(b, free, f1, f2, e)
    ensures r.Failure? ==> r.error == IndexOutOfRange
    ensures r.Success? ==> |r.value.s| == Count(b, free) && |r.value.v| == Count(b, free)
    ensures r.Success? ==>
      var E := Wrap(e, b.ng);
      var F1, F2 := Wrap(f1, Count(b, Others(free).0)), Wrap(f2, Count(b, Others(free).1));
      forall i :: 0 <= i < Count(b, free) ==>
        InGrid(b, E, Place(free, i, F1, F2)) &&
        r.value.s[i] == Cell(b, E, Place(free, i, F1, F2), Channel(free)) &&
        r.value.v[i] == Cell(b, E, Place(free, i, F1, F2), ValueChannel)
  {
    if Count(b, free) > 0 && !LineIndicesOk(b, free, f1, f2, e) then
      Failure(IndexOutOfRange)
    else
      var E := Wrap(e, b.ng);
      var F1, F2 := Wrap(f1, Count(b, Others(free).0)), Wrap(f2, Count(b, Others(free).1));
      Success(LineSlice(LineChannel(b, free, F1, F2, E, Channel(free)), LineChannel(b, free, F1, F2, E, ValueChannel)))
  }

  /** The plane of cells with axis `fixed` at bin f and energy group e, spanned by the
      other two axes (rows along the first, columns along the second): both centres, the
      result values and the relative errors. A span of one bin or fewer is refused before
      any index is looked at. */
  function PlaneAt(b: Block, fixed: Axis, f: int, e: int): (r: Result<PlaneSlice, SliceError>)
    requires WellFormed(b)
    ensures r == Failure(NotPlanar) <==> Count(b, Others(fixed).0) <= 1 || Count(b, Others(fixed).1) <= 1
    ensures r == Failure(IndexOutOfRange) <==>
      Count(b, Others(fixed).0) > 1 && Count(b, Others(fixed).1) > 1 &&
      !(InAxis(e, b.ng) && InAxis(f, Count(b, fixed)))
    ensures r.Success? <==>
      Count(b, Others(fixed).0) > 1 && Count(b, Others(fixed).1) > 1 &&
      InAxis(e, b.ng) && InAxis(f, Count(b, fixed))
    ensures r.Success? ==>
      var E, F := Wrap(e, b.ng), Wrap(f, Count(b, fixed));
      var n0, n1 := Count(b, Others(fixed).0), Count(b, Others(fixed).1);
      |r.value.s| == n0 && |r.value.t| == n0 && |r.value.v| == n0 && |r.value.u| == n0 &&
      forall i :: 0 <= i < n0 ==>
        |r.value.s[i]| == n1 && |r.value.t[i]| == n1 && |r.value.v[i]| == n1 && |r.value.u[i]| == n1 &&
        forall j :: 0 <= j < n1 ==>
          InGrid(b, E, Place(fixed, F, i, j)) &&
          r.value.s[i][j] == Cell(b, E, Place(fixed, F, i, j), Channel(Others(fixed).0)) &&
          r.value.t[i][j] == Cell(b, E, Place(fixed, F, i, j), Channel(Others(fixed).1)) &&
          r.value.v[i][j] == Cell(b, E, Place(fixed, F, i, j), ValueChannel) &&
          r.value.u[i][j] == Cell(b, E, Place(fixed, F, i, j), ErrorChannel)
  {
    var (p, q) := Others(fixed);
    if Count(b, p) <= 1 || Count(b, q) <= 1 then
      Failure(NotPlanar)
    else if !(InAxis(e, b.ng) && InAxis(f, Count(b, fixed))) then
      Failure(IndexOutOfRange)
    else
      var E, F := Wrap(e, b.ng), Wrap(f, Count(b, fixed));
      Success(PlaneSlice(
        PlaneChannel(b, fixed, F, E, Channel(p)),
        PlaneChannel(b, fixed, F, E, Channel(q)),
        PlaneChannel(b, fixed, F, E, ValueChannel),
        PlaneChannel(b, fixed, F, E, ErrorChannel)))
  }

  /** Every block of a scan is well formed. */
  predicate AllWellFormed(bs: seq<Block>) {
    forall i :: 0 <= i < |bs| ==> WellFormed(bs[i])
  }
}
