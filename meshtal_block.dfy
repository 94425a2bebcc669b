/**
 * One tally block as an object: the boundary lists that the reader appends to, the
 * counts and data array that sizing sets, the bin lookups and the slice extractors
 * that fill freshly allocated arrays.
 */
module MeshTal {
  import opened Outcomes
  import opened Grid
  import opened BinLocator

  /** The two arrays a line slice returns: centres along the free axis, and values. */
  datatype LineArrays = LineArrays(s: array<real>, v: array<real>)

  /** The four arrays a plane slice returns: both centres, values, relative errors. */
  datatype PlaneArrays = PlaneArrays(s: array2<real>, t: array2<real>, v: array2<real>, u: array2<real>)

  ghost function Matrix(a: array2<real>): (m: seq<seq<real>>)
    reads a
    ensures |m| == a.Length0
    ensures forall i :: 0 <= i < a.Length0 ==> |m[i]| == a.Length1
    ensures forall i, j :: 0 <= i < a.Length0 && 0 <= j < a.Length1 ==> m[i][j] == a[i, j]
  {
    seq(a.Length0, i requires 0 <= i < a.Length0 reads a =>
      seq(a.Length1, j requires 0 <= j < a.Length1 reads a => a[i, j]))
  }

  ghost function LineContents(r: Result<LineArrays, SliceError>): Result<LineSlice, SliceError>
    reads if r.Success? then {r.value.s, r.value.v} else {}
  {
    match r
    case Failure(err) => Failure(err)
    case Success(a) => Success(LineSlice(a.s[..], a.v[..]))
  }

  ghost function PlaneContents(r: Result<PlaneArrays, SliceError>): Result<PlaneSlice, SliceError>
    reads if r.Success? then {r.value.s, r.value.t, r.value.v, r.value.u} else {}
  {
    match r
    case Failure(err) => Failure(err)
    case Success(a) => Success(PlaneSlice(Matrix(a.s), Matrix(a.t), Matrix(a.v), Matrix(a.u)))
  }

  /** A matrix that agrees with `m` entry by entry, in the same shape, is `m`. */
  lemma MatrixIs(a: array2<real>, m: seq<seq<real>>)
    requires a.Length0 == |m|
    requires forall i :: 0 <= i < |m| ==> |m[i]| == a.Length1
    requires forall i, j :: 0 <= i < |m| && 0 <= j < a.Length1 ==> a[i, j] == m[i][j]
    ensures Matrix(a) == m
  {
    var n := Matrix(a);
    forall i | 0 <= i < |m|
      ensures n[i] == m[i]
    {
      assert forall j :: 0 <= j < a.Length1 ==> n[i][j] == m[i][j];
    }
  }

  /** `m` has the shape of `a`, and every entry of `a` before row i, column j (row by row)
      agrees with `m`. */
  ghost predicate Filled(a: array2<real>, m: seq<seq<real>>, i: int, j: int)
    reads a
  {
    && |m| == a.Length0
    && (forall r :: 0 <= r < |m| ==> |m[r]| == a.Length1)
    && forall i', j' :: 0 <= i' < a.Length0 && 0 <= j' < a.Length1 && (i' < i || (i' == i && j' < j)) ==>
         a[i', j'] == m[i'][j']
  }

  /** Writes entry (i, j), the next one in row order, with the value `m` gives it. */
  method PutNext(a: array2<real>, ghost m: seq<seq<real>>, i: int, j: int, x: real)
    requires 0 <= i < a.Length0 && 0 <= j < a.Length1
    requires Filled(a, m, i, j) && x == m[i][j]
    modifies a
    ensures Filled(a, m, i, j + 1)
  {
    a[i, j] := x;
    forall i', j' | 0 <= i' < a.Length0 && 0 <= j' < a.Length1 && (i' < i || (i' == i && j' < j + 1))
      ensures a[i', j'] == m[i'][j']
    {
      if i' != i || j' != j {
        assert a[i', j'] == old(a[i', j']);
      }
    }
  }

  class MeshTalBlock {
    var eBins: seq<real>
    var xBins: seq<real>
    var yBins: seq<real>
    var zBins: seq<real>
    var binLims: seq<real>
    var nx: nat
    var ny: nat
    var nz: nat
    var ng: nat
    var dataValues: array<real>

    ghost predicate Valid()
      reads this
    {
      |binLims| == 4 && dataValues.Length == ng * nx * ny * nz * 5
    }

    ghost function Value(): (b: Block)
      reads this, dataValues
      ensures Valid() ==> WellFormed(b)
    {
      Block(eBins, xBins, yBins, zBins, binLims, nx, ny, nz, ng, dataValues[..])
    }

    /** A block with no boundaries, zero counts and no data. */
    constructor ()
      ensures Valid() && fresh(dataValues)
      ensures Value() == EmptyBlock
    {
      eBins, xBins, yBins, zBins := [], [], [], [];
      binLims := [0.0, 0.0, 0.0, 0.0];
      nx, ny, nz, ng := 0, 0, 0, 0;
      dataValues := new real[0];
    }

    function Dim(a: Axis): (n: nat)
      reads this
      ensures n == Count(Value(), a)
    {
      match a
      case X => nx
      case Y => ny
      case Z => nz
    }

    // -------------------------------------------------------------- bin lookup

    /** Energy group of value v. The lookup ends by reading the chosen boundary, which
        fails on an empty boundary list. */
    method ChooseCellE(v: real) returns (r: Result<int, SliceError>)
      ensures r == if |eBins| == 0 then Failure(EmptyAxis) else Success(EnergyBin(eBins, v))
    {
      var index := ScanEnergy(eBins, v);
      if !InAxis(index, |eBins|) {
        return Failure(EmptyAxis);
      }
      r := Success(index);
    }

    method ChooseCellX(v: real) returns (r: Result<int, SliceError>)
      ensures r == if |xBins| == 0 then Failure(EmptyAxis) else Success(CoordinateBin(xBins, v))
    {
      var index := ScanCoordinate(xBins, v);
      if !InAxis(index, |xBins|) {
        return Failure(EmptyAxis);
      }
      r := Success(index);
    }

    method ChooseCellY(v: real) returns (r: Result<int, SliceError>)
      ensures r == if |yBins| == 0 then Failure(EmptyAxis) else Success(CoordinateBin(yBins, v))
    {
      var index := ScanCoordinate(yBins, v);
      if !InAxis(index, |yBins|) {
        return Failure(EmptyAxis);
      }
      r := Success(index);
    }

    method ChooseCellZ(v: real) returns (r: Result<int, SliceError>)
      ensures r == if |zBins| == 0 then Failure(EmptyAxis) else Success(CoordinateBin(zBins, v))
    {
      var index := ScanCoordinate(zBins, v);
      if !InAxis(index, |zBins|) {
        return Failure(EmptyAxis);
      }
      r := Success(index);
    }

    // -------------------------------------------------------------- sizing

    /** Sets the counts from the boundary lists and replaces the data by a zeroed
        array of ng*nx*ny*nz cells of five channels. */
    method SizeDataValues()
      requires Valid()
      modifies this
      ensures Valid() && fresh(dataValues)
      ensures Value() == Size(old(Value()))
    {
      nx := |xBins|;
      ny := |yBins|;
      nz := |zBins|;
      ng := |eBins| + 1;
      CellCountNonNegative(Value());
      dataValues := new real[ng * nx * ny * nz * 5](_ => 0.0);
    }

    // -------------------------------------------------------------- slices

    /** Fills `s` and `v` with the centre channel and the value channel of the cells
        along `free`, the other axes at bins F1, F2 and energy group E. */
    method FillLine(free: Axis, F1: int, F2: int, E: int, s: array<real>, v: array<real>,
                    ghost ls: seq<real>, ghost lv: seq<real>)
      requires Valid() && s != v && s != dataValues && v != dataValues
      requires s.Length == v.Length == Dim(free)
      requires Dim(free) > 0 ==> 0 <= E < ng && 0 <= F1 < Dim(Others(free).0) && 0 <= F2 < Dim(Others(free).1)
      requires ls == LineChannel(Value(), free, F1, F2, E, Channel(free))
      requires lv == LineChannel(Value(), free, F1, F2, E, ValueChannel)
      modifies s, v
      ensures s[..] == ls && v[..] == lv
    {
      ghost var b := Value();
      for i := 0 to s.Length
        invariant forall j :: 0 <= j < i ==> s[j] == ls[j]
        invariant forall j :: 0 <= j < i ==> v[j] == lv[j]
      {
        var p := Place(free, i, F1, F2);
        FlatBound(ng, nx, ny, nz, E, p.x, p.y, p.z);
        assert ls[i] == Cell(b, E, p, Channel(free)) && lv[i] == Cell(b, E, p, ValueChannel);
        s[i] := dataValues[Offset(nx, ny, nz, E, p.x, p.y, p.z, Channel(free))];
        v[i] := dataValues[Offset(nx, ny, nz, E, p.x, p.y, p.z, ValueChannel)];
      }
    }

    /** The line along `free` at fixed bins f1, f2 (x, y, z order) and energy group e. */
    method UnpackLine(free: Axis, f1: int, f2: int, e: int) returns (r: Result<LineArrays, SliceError>)
      requires Valid()
      ensures LineContents(r) == LineAlong(Value(), free, f1, f2, e)
      ensures r.Success? ==> fresh(r.value.s) && fresh(r.value.v)
    {
      var n := Dim(free);
      var (a1, a2) := Others(free);
      if n > 0 && !(InAxis(e, ng) && InAxis(f1, Dim(a1)) && InAxis(f2, Dim(a2))) {
        return Failure(IndexOutOfRange);
      }
      var E, F1, F2 := Wrap(e, ng), Wrap(f1, Dim(a1)), Wrap(f2, Dim(a2));
      ghost var ls := LineChannel(Value(), free, F1, F2, E, Channel(free));
      ghost var lv := LineChannel(Value(), free, F1, F2, E, ValueChannel);
      assert LineAlong(Value(), free, f1, f2, e) == Success(LineSlice(ls, lv));
      var s := new real[n](_ => 0.0);
      var v := new real[n](_ => 0.0);
      FillLine(free, F1, F2, E, s, v, ls, lv);
      r := Success(LineArrays(s, v));
    }

    /** Row i of a plane: entry (i, j) of each array takes its channel of the cell at
        column j. */
    method FillPlaneRow(fixed: Axis, F: int, E: int, i: int, a: PlaneArrays,
                        ghost ms: seq<seq<real>>, ghost mt: seq<seq<real>>,
                        ghost mv: seq<seq<real>>, ghost mu: seq<seq<real>>)
      requires Valid() && 0 <= E < ng && 0 <= F < Dim(fixed) && 0 <= i < Dim(Others(fixed).0)
      requires a.s.Length0 == a.t.Length0 == a.v.Length0 == a.u.Length0 == Dim(Others(fixed).0)
      requires a.s.Length1 == a.t.Length1 == a.v.Length1 == a.u.Length1 == Dim(Others(fixed).1)
      requires a.s != a.t && a.s != a.v && a.s != a.u && a.t != a.v && a.t != a.u && a.v != a.u
      requires ms == PlaneChannel(Value(), fixed, F, E, Channel(Others(fixed).0))
      requires mt == PlaneChannel(Value(), fixed, F, E, Channel(Others(fixed).1))
      requires mv == PlaneChannel(Value(), fixed, F, E, ValueChannel)
      requires mu == PlaneChannel(Value(), fixed, F, E, ErrorChannel)
      requires Filled(a.s, ms, i, 0) && Filled(a.t, mt, i, 0) && Filled(a.v, mv, i, 0) && Filled(a.u, mu, i, 0)
      modifies a.s, a.t, a.v, a.u
      ensures Filled(a.s, ms, i + 1, 0) && Filled(a.t, mt, i + 1, 0)
      ensures Filled(a.v, mv, i + 1, 0) && Filled(a.u, mu, i + 1, 0)
    {
      var (p, q) := Others(fixed);
      for j := 0 to Dim(q)
        invariant Filled(a.s, ms, i, j) && Filled(a.t, mt, i, j) && Filled(a.v, mv, i, j) && Filled(a.u, mu, i, j)
      {
        var c := Place(fixed, F, i, j);
        FlatBound(ng, nx, ny, nz, E, c.x, c.y, c.z);
        PutNext(a.s, ms, i, j, dataValues[Offset(nx, ny, nz, E, c.x, c.y, c.z, Channel(p))]);
        PutNext(a.t, mt, i, j, dataValues[Offset(nx, ny, nz, E, c.x, c.y, c.z, Channel(q))]);
        PutNext(a.v, mv, i, j, dataValues[Offset(nx, ny, nz, E, c.x, c.y, c.z, ValueChannel)]);
        PutNext(a.u, mu, i, j, dataValues[Offset(nx, ny, nz, E, c.x, c.y, c.z, ErrorChannel)]);
      }
    }

    /** The plane with axis `fixed` at bin f and energy group e. */
    method UnpackPlane(fixed: Axis, f: int, e: int) returns (r: Result<PlaneArrays, SliceError>)
      requires Valid()
      ensures PlaneContents(r) == PlaneAt(Value(), fixed, f, e)
      ensures r.Success? ==> fresh(r.value.s) && fresh(r.value.t) && fresh(r.value.v) && fresh(r.value.u)
    {
      var (p, q) := Others(fixed);
      var n0, n1 := Dim(p), Dim(q);
      if n0 <= 1 || n1 <= 1 {
        return Failure(NotPlanar);
      }
      if !(InAxis(e, ng) && InAxis(f, Dim(fixed))) {
        return Failure(IndexOutOfRange);
      }
      var E, F := Wrap(e, ng), Wrap(f, Dim(fixed));
      ghost var b := Value();
      ghost var ms, mt := PlaneChannel(b, fixed, F, E, Channel(p)), PlaneChannel(b, fixed, F, E, Channel(q));
      ghost var mv, mu := PlaneChannel(b, fixed, F, E, ValueChannel), PlaneChannel(b, fixed, F, E, ErrorChannel);
      var s := new real[n0, n1]((_, _) => 0.0);
      var t := new real[n0, n1]((_, _) => 0.0);
      var v := new real[n0, n1]((_, _) => 0.0);
      var u := new real[n0, n1]((_, _) => 0.0);
      for i := 0 to n0
        invariant Filled(s, ms, i, 0) && Filled(t, mt, i, 0) && Filled(v, mv, i, 0) && Filled(u, mu, i, 0)
      {
        FillPlaneRow(fixed, F, E, i, PlaneArrays(s, t, v, u), ms, mt, mv, mu);
      }
      MatrixIs(s, ms);
      MatrixIs(t, mt);
      MatrixIs(v, mv);
      MatrixIs(u, mu);
      r := Success(PlaneArrays(s, t, v, u));
    }

    /** Line along z at bins x, y and energy group e. */
    method UnpackGivenXYE(x: int, y: int, e: int) returns (r: Result<LineArrays, SliceError>)
      requires Valid()
      ensures LineContents(r) == LineAlong(Value(), Z, x, y, e)
      ensures r.Success? ==> fresh(r.value.s) && fresh(r.value.v)
    {
      r := UnpackLine(Z, x, y, e);
    }

    /** Line along y at bins x, z and energy group e. */
    method UnpackGivenXZE(x: int, z: int, e: int) returns (r: Result<LineArrays, SliceError>)
      requires Valid()
      ensures LineContents(r) == LineAlong(Value(), Y, x, z, e)
      ensures r.Success? ==> fresh(r.value.s) && fresh(r.value.v)
    {
      r := UnpackLine(Y, x, z, e);
    }

    /** Line along x at bins y, z and energy group e. */
    method UnpackGivenYZE(y: int, z: int, e: int) returns (r: Result<LineArrays, SliceError>)
      requires Valid()
      ensures LineContents(r) == LineAlong(Value(), X, y, z, e)
      ensures r.Success? ==> fresh(r.value.s) && fresh(r.value.v)
    {
      r := UnpackLine(X, y, z, e);
    }

    /** The y-z plane at x bin x and energy group e. */
    method UnpackGivenXEBins(x: int, e: int) returns (r: Result<PlaneArrays, SliceError>)
      requires Valid()
      ensures PlaneContents(r) == PlaneAt(Value(), X, x, e)
      ensures r.Success? ==> fresh(r.value.s) && fresh(r.value.t) && fresh(r.value.v) && fresh(r.value.u)
    {
      r := UnpackPlane(X, x, e);
    }

    /** The x-z plane at y bin y and energy group e. */
    method UnpackGivenYEBins(y: int, e: int) returns (r: Result<PlaneArrays, SliceError>)
      requires Valid()
      ensures PlaneContents(r) == PlaneAt(Value(), Y, y, e)
      ensures r.Success? ==> fresh(r.value.s) && fresh(r.value.t) && fresh(r.value.v) && fresh(r.value.u)
    {
      r := UnpackPlane(Y, y, e);
    }

    /** The x-y plane at z bin zbin and energy group e. */
    method UnpackGivenZEBins(zbin: int, e: int) returns (r: Result<PlaneArrays, SliceError>)
      requires Valid()
      ensures PlaneContents(r) == PlaneAt(Value(), Z, zbin, e)
      ensures r.Success? ==> fresh(r.value.s) && fresh(r.value.t) && fresh(r.value.v) && fresh(r.value.u)
    {
      r := UnpackPlane(Z, zbin, e);
    }

    /** The y-z plane through the x coordinate xval: the same as the plane at the x bin
        that xval falls in; e is passed on as an energy group index. */
    method UnpackGivenXE(xval: real, e: int) returns (r: Result<PlaneArrays, SliceError>)
      requires Valid()
      ensures |xBins| == 0 ==> r == Failure(EmptyAxis)
      ensures |xBins| > 0 ==> PlaneContents(r) == PlaneAt(Value(), X, CoordinateBin(xBins, xval), e)
      ensures r.Success? ==> fresh(r.value.s) && fresh(r.value.t) && fresh(r.value.v) && fresh(r.value.u)
    {
      var x := ChooseCellX(xval);
      if x.Failure? {
        return Failure(x.error);
      }
      r := UnpackGivenXEBins(x.value, e);
    }

    /** The x-z plane through the y coordinate yval. */
    method UnpackGivenYE(yval: real, e: int) returns (r: Result<PlaneArrays, SliceError>)
      requires Valid()
      ensures |yBins| == 0 ==> r == Failure(EmptyAxis)
      ensures |yBins| > 0 ==> PlaneContents(r) == PlaneAt(Value(), Y, CoordinateBin(yBins, yval), e)
      ensures r.Success? ==> fresh(r.value.s) && fresh(r.value.t) && fresh(r.value.v) && fresh(r.value.u)
    {
      var y := ChooseCellY(yval);
      if y.Failure? {
        return Failure(y.error);
      }
      r := UnpackGivenYEBins(y.value, e);
    }

    /** The x-y plane through the z coordinate zval. */
    method UnpackGivenZE(zval: real, e: int) returns (r: Result<PlaneArrays, SliceError>)
      requires Valid()
      ensures |zBins| == 0 ==> r == Failure(EmptyAxis)
      ensures |zBins| > 0 ==> PlaneContents(r) == PlaneAt(Value(), Z, CoordinateBin(zBins, zval), e)
      ensures r.Success? ==> fresh(r.value.s) && fresh(r.value.t) && fresh(r.value.v) && fresh(r.value.u)
    {
      var z := ChooseCellZ(zval);
      if z.Failure? {
        return Failure(z.error);
      }
      r := UnpackGivenZEBins(z.value, e);
    }
  }

  /** Each block object holds the corresponding block value. */
  ghost predicate Mirrors(bs: seq<MeshTalBlock>, vs: seq<Block>)
    reads set i | 0 <= i < |bs| :: bs[i]
    reads set i | 0 <= i < |bs| :: bs[i].dataValues
  {
    |bs| == |vs| && forall i :: 0 <= i < |bs| ==> bs[i].Value() == vs[i]
  }

  /** Every block is valid, and neither the current block nor its data array is shared
      with an earlier block. */
  ghost predicate Owned(bs: seq<MeshTalBlock>)
    reads set i | 0 <= i < |bs| :: bs[i]
  {
    && (forall i :: 0 <= i < |bs| ==> bs[i].Valid())
    && (forall i :: 0 <= i < |bs| - 1 ==> bs[i] != bs[|bs| - 1] && bs[i].dataValues != bs[|bs| - 1].dataValues)
  }

  /** The block objects `bs` hold exactly the scanned values `vs`, and each is well formed. */
  ghost predicate Represents(bs: seq<MeshTalBlock>, vs: seq<Block>)
    reads set i | 0 <= i < |bs| :: bs[i]
    reads set i | 0 <= i < |bs| :: bs[i].dataValues
  {
    Owned(bs) && Mirrors(bs, vs) && AllWellFormed(vs)
  }
}
