/**
 * The meshtal reader as the program runs it: a cursor over the split lines, a list of
 * block objects whose last element is the current block, boundary lists extended token
 * by token, and data tables written into the current block's array in place.
 */
module MeshtalReader {
  import opened Outcomes
  import opened Grid
  import opened MeshTal
  import opened MeshtalScan

  /** Tokens 1 to 5 of a data row into a[base .. base + 5], each written as soon as it
      is converted; the first token that is absent or not a number stops the row. */
  method StoreRow(a: array<real>, base: nat, w: Words, line: int) returns (r: Result<seq<real>, ParseError>)
    requires base + 5 <= a.Length
    modifies a
    ensures r == RowFrom(w, line, 1)
    ensures r.Success? ==> a[..] == old(a[..base]) + r.value + old(a[base + 5..])
  {
    RowFromMeaning(w, line, 1);
    for k := 0 to 5
      invariant k == 0 || k < |w|
      invariant forall i :: 1 <= i <= k ==> w[i].Num? && a[base + i - 1] == w[i].value
      invariant a[..base] == old(a[..base]) && a[base + 5..] == old(a[base + 5..])
    {
      if k + 1 >= |w| {
        assert RowFrom(w, line, 1) == Failure(ShortRow(line));
        return Failure(ShortRow(line));
      }
      if !w[k + 1].Num? {
        assert RowFrom(w, line, 1) == Failure(NotANumber(line));
        return Failure(NotANumber(line));
      }
      a[base + k] := w[k + 1].value;
    }
    ghost var expected := RowFrom(w, line, 1);
    assert expected.Success?;
    forall j | 0 <= j < 5
      ensures a[base..base + 5][j] == expected.value[j]
    {
      assert a[base + j] == w[j + 1].value == expected.value[j + 1 - 1];
    }
    r := Success(a[base..base + 5]);
    assert r.value == expected.value;
    assert a[..] == a[..base] + a[base..base + 5] + a[base + 5..];
  }

  /** One more numeric word extends the run of numbers and its values by one. */
  lemma ValuesExtend(w: Words, lo: nat, k: nat)
    requires lo <= k < |w| && AllNum(w[lo..k]) && w[k].Num?
    ensures AllNum(w[lo..k + 1]) && Values(w[lo..k + 1]) == Values(w[lo..k]) + [w[k].value]
  {
    assert w[lo..k + 1] == w[lo..k] + [w[k]];
  }

  /** An axis header's boundaries words[3..] appended one by one to axis `a` of block b,
      then words[3] recorded in binLims. */
  method ReadAxisBounds(b: MeshTalBlock, a: Axis, w: Words, line: int) returns (r: Result<seq<real>, ParseError>)
    requires b.Valid() && |w| > 3
    modifies b
    ensures r.Success? <==> AllNum(w[3..])
    ensures r.Failure? ==> r.error == NotANumber(line)
    ensures r.Success? ==> r.value == Values(w[3..]) && b.Valid() && b.dataValues == old(b.dataValues)
    ensures r.Success? ==> b.Value() == AddAxisBounds(old(b.Value()), a, Values(w[3..]))
  {
    ghost var b0 := b.Value();
    for k := 3 to |w|
      invariant AllNum(w[3..k])
      invariant b.Valid() && b.dataValues == old(b.dataValues)
      invariant b.Value() == WithAxisBins(b0, a, AxisBins(b0, a) + Values(w[3..k]))
    {
      if !w[k].Num? {
        return Failure(NotANumber(line));
      }
      ValuesExtend(w, 3, k);
      match a
      case X => b.xBins := b.xBins + [w[k].value];
      case Y => b.yBins := b.yBins + [w[k].value];
      case Z => b.zBins := b.zBins + [w[k].value];
    }
    assert w[3..|w|] == w[3..];
    b.binLims := b.binLims[Channel(a) := w[3].value];
    r := Success(Values(w[3..]));
  }

  /** The energy header's boundaries words[4..] appended one by one, words[4] recorded
      in binLims, then the block sized. */
  method ReadEnergyBounds(b: MeshTalBlock, w: Words, line: int) returns (r: Result<seq<real>, ParseError>)
    requires b.Valid() && |w| > 4
    modifies b
    ensures r.Success? <==> AllNum(w[4..])
    ensures r.Failure? ==> r.error == NotANumber(line)
    ensures r.Success? ==> r.value == Values(w[4..]) && b.Valid() && fresh(b.dataValues)
    ensures r.Success? ==> b.Value() == AddEnergyBounds(old(b.Value()), Values(w[4..]))
  {
    ghost var b0 := b.Value();
    for k := 4 to |w|
      invariant AllNum(w[4..k])
      invariant b.Valid() && b.dataValues == old(b.dataValues)
      invariant b.Value() == b0.(eBins := b0.eBins + Values(w[4..k]))
    {
      if !w[k].Num? {
        return Failure(NotANumber(line));
      }
      ValuesExtend(w, 4, k);
      b.eBins := b.eBins + [w[k].value];
    }
    assert w[4..|w|] == w[4..];
    b.binLims := b.binLims[3 := w[4].value];
    b.SizeDataValues();
    r := Success(Values(w[4..]));
  }

  /** The first `done` rows of the table after line h are read into a[..5 * done]. */
  ghost predicate TablePrefix(a: array<real>, lines: seq<Words>, h: nat, done: int)
    reads a
  {
    0 <= done && 5 * done <= a.Length && ReadRows(lines, h + 1, done) == Success(a[..5 * done])
  }

  /** The data table after header line h: one row per cell, energy group outermost and z
      innermost, written into block b's array in place. The result is the index of the
      last row read. */
  method FillDataTable(b: MeshTalBlock, lines: seq<Words>, h: nat) returns (r: Result<nat, ParseError>)
    requires b.Valid()
    modifies b.dataValues
    ensures r.Failure? ==> ReadRows(lines, h + 1, CellCount(b.Value())) == Failure(r.error)
    ensures r.Success? ==> r.value == h + CellCount(b.Value())
    ensures r.Success? ==> ReadRows(lines, h + 1, CellCount(b.Value())) == Success(b.dataValues[..])
    ensures b.Value() == old(b.Value()).(data := b.dataValues[..])
  {
    var ng, nx, ny, nz := b.ng, b.nx, b.ny, b.nz;
    ghost var total := CellCount(b.Value());
    var ell := h;
    for e := 0 to ng
      invariant ell == h + Flat(nx, ny, nz, e, 0, 0, 0) && TablePrefix(b.dataValues, lines, h, ell - h)
    {
      r := FillEnergyGroup(b.dataValues, lines, h, total, ng, nx, ny, nz, e, ell);
      if r.Failure? {
        return;
      }
      ell := r.value;
    }
    assert ell - h == total;
    assert b.dataValues[..5 * total] == b.dataValues[..];
    r := Success(ell);
  }

  /** The rows of energy group e, from cell (e, 0, 0, 0) on, starting after line ell0. */
  method FillEnergyGroup(a: array<real>, lines: seq<Words>, h: nat, ghost total: nat,
                         ng: nat, nx: nat, ny: nat, nz: nat, e: nat, ell0: nat)
    returns (r: Result<nat, ParseError>)
    requires e < ng && total == ng * nx * ny * nz && a.Length == 5 * total
    requires ell0 == h + Flat(nx, ny, nz, e, 0, 0, 0) && TablePrefix(a, lines, h, ell0 - h)
    modifies a
    ensures r.Failure? ==> ReadRows(lines, h + 1, total) == Failure(r.error)
    ensures r.Success? ==> r.value == h + Flat(nx, ny, nz, e + 1, 0, 0, 0) && TablePrefix(a, lines, h, r.value - h)
  {
    var ell := ell0;
    for x := 0 to nx
      invariant ell == h + Flat(nx, ny, nz, e, x, 0, 0) && TablePrefix(a, lines, h, ell - h)
    {
      r := FillAlongY(a, lines, h, total, ng, nx, ny, nz, e, x, ell);
      if r.Failure? {
        return;
      }
      ell := r.value;
    }
    FlatCarry(nx, ny, nz, e, nx, 0);
    r := Success(ell);
  }

  /** The rows of cells (e, x, y, z) for all y and z, starting after line ell0. */
  method FillAlongY(a: array<real>, lines: seq<Words>, h: nat, ghost total: nat,
                    ng: nat, nx: nat, ny: nat, nz: nat, e: nat, x: nat, ell0: nat)
    returns (r: Result<nat, ParseError>)
    requires e < ng && x < nx && total == ng * nx * ny * nz && a.Length == 5 * total
    requires ell0 == h + Flat(nx, ny, nz, e, x, 0, 0) && TablePrefix(a, lines, h, ell0 - h)
    modifies a
    ensures r.Failure? ==> ReadRows(lines, h + 1, total) == Failure(r.error)
    ensures r.Success? ==> r.value == h + Flat(nx, ny, nz, e, x + 1, 0, 0) && TablePrefix(a, lines, h, r.value - h)
  {
    var ell := ell0;
    for y := 0 to ny
      invariant ell == h + Flat(nx, ny, nz, e, x, y, 0) && TablePrefix(a, lines, h, ell - h)
    {
      r := FillAlongZ(a, lines, h, total, ng, nx, ny, nz, e, x, y, ell);
      if r.Failure? {
        return;
      }
      ell := r.value;
    }
    FlatCarry(nx, ny, nz, e, x, ny);
    r := Success(ell);
  }

  /** The rows of cells (e, x, y, 0) .. (e, x, y, nz - 1), one line each, starting after
      line ell0. */
  method FillAlongZ(a: array<real>, lines: seq<Words>, h: nat, ghost total: nat,
                    ng: nat, nx: nat, ny: nat, nz: nat, e: nat, x: nat, y: nat, ell0: nat)
    returns (r: Result<nat, ParseError>)
    requires e < ng && x < nx && y < ny && total == ng * nx * ny * nz && a.Length == 5 * total
    requires ell0 == h + Flat(nx, ny, nz, e, x, y, 0) && TablePrefix(a, lines, h, ell0 - h)
    modifies a
    ensures r.Failure? ==> ReadRows(lines, h + 1, total) == Failure(r.error)
    ensures r.Success? ==> r.value == h + Flat(nx, ny, nz, e, x, y + 1, 0) && TablePrefix(a, lines, h, r.value - h)
  {
    var ell := ell0;
    for z := 0 to nz
      invariant ell == h + Flat(nx, ny, nz, e, x, y, z) && TablePrefix(a, lines, h, ell - h)
    {
      FlatBound(ng, nx, ny, nz, e, x, y, z);
      ell := ell + 1;
      var row := StoreNextRow(a, lines, h, ell - h - 1, total, ell, Offset(nx, ny, nz, e, x, y, z, 0));
      if row.Failure? {
        return Failure(row.error);
      }
    }
    FlatCarry(nx, ny, nz, e, x, y);
    r := Success(ell);
  }

  /** Row `done` of a table of `total` rows after line h, read from line ell = h + 1 + done
      into the five channels of its cell in array a, which start at `base`. On failure, the
      whole table fails with that error. */
  method StoreNextRow(a: array<real>, lines: seq<Words>, h: nat, ghost done: nat, ghost total: nat, ell: nat, base: int)
    returns (r: Result<seq<real>, ParseError>)
    requires done < total && a.Length == 5 * total && ell == h + 1 + done && base == 5 * done
    requires ReadRows(lines, h + 1, done) == Success(a[..5 * done])
    modifies a
    ensures r.Failure? ==> ReadRows(lines, h + 1, total) == Failure(r.error)
    ensures r.Success? ==> ReadRows(lines, h + 1, done + 1) == Success(a[..5 * (done + 1)])
  {
    if ell >= |lines| {
      r := Failure(LinePastEnd(ell));
    } else {
      r := StoreRow(a, base, lines[ell], ell);
    }
    assert ReadRow(lines, ell) == r;
    if r.Failure? {
      assert ReadRows(lines, h + 1, done + 1) == Failure(r.error);
      ReadRowsFailurePersists(lines, h + 1, done + 1, total);
    } else {
      assert a[..5 * (done + 1)] == old(a[..5 * done]) + r.value;
    }
  }

  /** Blocks before the current one keep their values when only the current block and
      its array change. */
  twostate lemma EarlierKept(blocks: seq<MeshTalBlock>)
    requires forall i :: 0 <= i < |blocks| - 1 ==> unchanged(blocks[i])
    requires forall i :: 0 <= i < |blocks| - 1 ==> unchanged(blocks[i].dataValues)
    ensures forall i :: 0 <= i < |blocks| - 1 ==>
      blocks[i].Value() == old(blocks[i].Value()) && blocks[i].Valid() == old(blocks[i].Valid())
  {
  }

  /** Objects that mirror the earlier values, and a valid current block holding v that
      shares nothing with them, mirror the values with the current one replaced by v. */
  lemma CurrentReplaced(blocks: seq<MeshTalBlock>, vs: seq<Block>, v: Block)
    requires |blocks| == |vs| > 0
    requires forall i :: 0 <= i < |blocks| - 1 ==> blocks[i].Valid() && blocks[i].Value() == vs[i]
    requires forall i :: 0 <= i < |blocks| - 1 ==>
      blocks[i] != blocks[|blocks| - 1] && blocks[i].dataValues != blocks[|blocks| - 1].dataValues
    requires blocks[|blocks| - 1].Valid() && blocks[|blocks| - 1].Value() == v
    ensures Owned(blocks) && Mirrors(blocks, ReplaceCurrent(vs, v))
  {
  }

  /** An axis header line: its boundaries go to the current block. */
  method AxisLine(lines: seq<Words>, ell: nat, blocks: seq<MeshTalBlock>, ghost vs: seq<Block>, a: Axis)
    returns (r: Result<nat, ParseError>)
    requires ell < |lines| && Classify(lines[ell]) == AxisBounds(a)
    requires Owned(blocks) && Mirrors(blocks, vs) && AllWellFormed(vs)
    modifies if |blocks| == 0 then {} else {blocks[|blocks| - 1]}
    modifies if |blocks| == 0 then {} else {blocks[|blocks| - 1].dataValues}
    ensures r.Failure? ==> Step(lines, ell, vs) == Failure(r.error)
    ensures r.Success? ==> (|blocks| > 0 && blocks[|blocks| - 1].Valid() &&
      Step(lines, ell, vs) == Success(Scan(ReplaceCurrent(vs, blocks[|blocks| - 1].Value()), r.value)))
    ensures r.Success? && |blocks| > 0 ==> var cur := blocks[|blocks| - 1];
      cur.dataValues == old(cur.dataValues) || fresh(cur.dataValues)
  {
    var w := lines[ell];
    if |w| <= 3 {
      r := Failure(MissingToken(ell));
    } else if |blocks| == 0 {
      r := Failure(NoCurrentBlock(ell));
    } else {
      var cur := blocks[|blocks| - 1];
      ghost var v0 := cur.Value();
      assert v0 == Current(vs);
      var got := ReadAxisBounds(cur, a, w, ell);
      if got.Success? {
        assert Step(lines, ell, vs) == Success(Scan(ReplaceCurrent(vs, cur.Value()), ell));
      }
      r := if got.Success? then Success(ell) else Failure(got.error);
    }
  }

  /** The energy header line: its boundaries go to the current block, which is then sized. */
  method EnergyLine(lines: seq<Words>, ell: nat, blocks: seq<MeshTalBlock>, ghost vs: seq<Block>)
    returns (r: Result<nat, ParseError>)
    requires ell < |lines| && Classify(lines[ell]) == EnergyBounds
    requires Owned(blocks) && Mirrors(blocks, vs) && AllWellFormed(vs)
    modifies if |blocks| == 0 then {} else {blocks[|blocks| - 1]}
    modifies if |blocks| == 0 then {} else {blocks[|blocks| - 1].dataValues}
    ensures r.Failure? ==> Step(lines, ell, vs) == Failure(r.error)
    ensures r.Success? ==> (|blocks| > 0 && blocks[|blocks| - 1].Valid() &&
      Step(lines, ell, vs) == Success(Scan(ReplaceCurrent(vs, blocks[|blocks| - 1].Value()), r.value)))
    ensures r.Success? && |blocks| > 0 ==> var cur := blocks[|blocks| - 1];
      cur.dataValues == old(cur.dataValues) || fresh(cur.dataValues)
  {
    var w := lines[ell];
    if |w| <= 4 {
      r := Failure(MissingToken(ell));
    } else if |blocks| == 0 {
      r := Failure(NoCurrentBlock(ell));
    } else {
      var cur := blocks[|blocks| - 1];
      ghost var v0 := cur.Value();
      assert v0 == Current(vs);
      var got := ReadEnergyBounds(cur, w, ell);
      if got.Success? {
        assert Step(lines, ell, vs) == Success(Scan(ReplaceCurrent(vs, cur.Value()), ell));
      }
      r := if got.Success? then Success(ell) else Failure(got.error);
    }
  }

  /** A data table header line: the rows after it fill the current block. */
  method TableLine(lines: seq<Words>, ell: nat, blocks: seq<MeshTalBlock>, ghost vs: seq<Block>)
    returns (r: Result<nat, ParseError>)
    requires ell < |lines| && Classify(lines[ell]) == DataTable
    requires Owned(blocks) && Mirrors(blocks, vs) && AllWellFormed(vs)
    modifies if |blocks| == 0 then {} else {blocks[|blocks| - 1]}
    modifies if |blocks| == 0 then {} else {blocks[|blocks| - 1].dataValues}
    ensures r.Failure? ==> Step(lines, ell, vs) == Failure(r.error)
    ensures r.Success? ==> (|blocks| > 0 && blocks[|blocks| - 1].Valid() &&
      Step(lines, ell, vs) == Success(Scan(ReplaceCurrent(vs, blocks[|blocks| - 1].Value()), r.value)))
    ensures r.Success? && |blocks| > 0 ==> var cur := blocks[|blocks| - 1];
      cur.dataValues == old(cur.dataValues) || fresh(cur.dataValues)
  {
    if |blocks| == 0 {
      r := Failure(NoCurrentBlock(ell));
    } else {
      var cur := blocks[|blocks| - 1];
      CellCountNonNegative(cur.Value());
      ghost var v0 := cur.Value();
      assert v0 == Current(vs);
      var got := FillDataTable(cur, lines, ell);
      if got.Success? {
        assert Step(lines, ell, vs) == Success(Scan(ReplaceCurrent(vs, cur.Value()), got.value));
      }
      r := got;
    }
  }

  /** A "Mesh Tally Number" line: a new, empty block object appended, which becomes current. */
  method AppendBlock(blocks: seq<MeshTalBlock>, ghost vs: seq<Block>) returns (bs: seq<MeshTalBlock>)
    requires Owned(blocks) && Mirrors(blocks, vs)
    ensures Owned(bs) && Mirrors(bs, vs + [EmptyBlock])
    ensures |bs| == |blocks| + 1 && fresh(bs[|blocks|]) && fresh(bs[|blocks|].dataValues)
  {
    var nb := new MeshTalBlock();
    bs := blocks + [nb];
    assert forall i :: 0 <= i < |blocks| ==> bs[i] == blocks[i];
  }

  /** A header line that acts on the current block: axis or energy boundaries, or a
      data table. */
  method CurrentHeader(lines: seq<Words>, ell: nat, blocks: seq<MeshTalBlock>, ghost vs: seq<Block>)
    returns (r: Result<nat, ParseError>)
    requires ell < |lines| && Classify(lines[ell]) !in {NoHeader, MeshTally}
    requires Owned(blocks) && Mirrors(blocks, vs) && AllWellFormed(vs)
    modifies if |blocks| == 0 then {} else {blocks[|blocks| - 1]}
    modifies if |blocks| == 0 then {} else {blocks[|blocks| - 1].dataValues}
    ensures r.Failure? ==> Step(lines, ell, vs) == Failure(r.error)
    ensures r.Success? ==> |blocks| > 0 && Step(lines, ell, vs).Success? && r.value == Step(lines, ell, vs).value.last
    ensures r.Success? ==> Owned(blocks) && Mirrors(blocks, Step(lines, ell, vs).value.blocks)
    ensures r.Success? && |blocks| > 0 ==> var cur := blocks[|blocks| - 1];
      cur.dataValues == old(cur.dataValues) || fresh(cur.dataValues)
  {
    var k := Classify(lines[ell]);
    if k.AxisBounds? {
      r := AxisLine(lines, ell, blocks, vs, k.axis);
    } else if k == EnergyBounds {
      r := EnergyLine(lines, ell, blocks, vs);
    } else {
      r := TableLine(lines, ell, blocks, vs);
    }
    EarlierKept(blocks);
    if r.Success? {
      CurrentReplaced(blocks, vs, blocks[|blocks| - 1].Value());
    }
  }

  /** One pass of the scan loop over line ell: the header the line carries is acted on,
      on the current block (the last one) or by appending a new block. */
  method StepBlocks(lines: seq<Words>, ell: nat, blocks: seq<MeshTalBlock>, ghost vs: seq<Block>)
    returns (r: Result<(seq<MeshTalBlock>, nat), ParseError>)
    requires ell < |lines| && Owned(blocks) && Mirrors(blocks, vs) && AllWellFormed(vs)
    modifies if |blocks| == 0 then {} else {blocks[|blocks| - 1]}
    modifies if |blocks| == 0 then {} else {blocks[|blocks| - 1].dataValues}
    ensures r.Failure? ==> Step(lines, ell, vs) == Failure(r.error)
    ensures r.Success? ==> Step(lines, ell, vs).Success? && r.value.1 == Step(lines, ell, vs).value.last
    ensures r.Success? ==> Owned(r.value.0) && Mirrors(r.value.0, Step(lines, ell, vs).value.blocks)
    ensures r.Success? && |r.value.0| > 0 ==> var cur := r.value.0[|r.value.0| - 1];
      (fresh(cur) && fresh(cur.dataValues)) ||
      (|blocks| > 0 && cur == blocks[|blocks| - 1] && (cur.dataValues == old(cur.dataValues) || fresh(cur.dataValues)))
  {
    var k := Classify(lines[ell]);
    if k == NoHeader {
      r := Success((blocks, ell));
    } else if k == MeshTally {
      assert Step(lines, ell, vs) == Success(Scan(vs + [EmptyBlock], ell));
      var bs := AppendBlock(blocks, vs);
      r := Success((bs, ell));
    } else {
      var got := CurrentHeader(lines, ell, blocks, vs);
      r := if got.Success? then Success((blocks, got.value)) else Failure(got.error);
    }
  }

  /** One turn of the scan loop: step past line `prev`, process the next line, and say
      whether the scan stops there. `goal` is what the rest of the scan must produce. */
  method ScanLine(lines: seq<Words>, prev: int, blocks: seq<MeshTalBlock>, ghost vs: seq<Block>, ghost goal: Result<seq<Block>, ParseError>)
    returns (r: Result<(seq<MeshTalBlock>, int, bool), ParseError>, ghost vs': seq<Block>)
    requires -1 <= prev < |lines| && Represents(blocks, vs)
    requires prev == -1 ==> ParseFrom(lines, LineCap, 0, vs) == goal
    requires prev >= 0 ==> Continue(lines, LineCap, Scan(vs, prev)) == goal && !(prev >= |lines| - 1 || prev > LineCap)
    modifies if |blocks| == 0 then {} else {blocks[|blocks| - 1]}
    modifies if |blocks| == 0 then {} else {blocks[|blocks| - 1].dataValues}
    ensures r.Failure? ==> goal == Failure(r.error)
    ensures r.Success? ==> prev < r.value.1 < |lines|
    ensures r.Success? ==> Represents(r.value.0, vs') && Continue(lines, LineCap, Scan(vs', r.value.1)) == goal
    ensures r.Success? ==> (r.value.2 <==> r.value.1 >= |lines| - 1 || r.value.1 > LineCap)
    ensures r.Success? && |r.value.0| > 0 ==> var cur := r.value.0[|r.value.0| - 1];
      (fresh(cur) && fresh(cur.dataValues)) ||
      (|blocks| > 0 && cur == blocks[|blocks| - 1] && (cur.dataValues == old(cur.dataValues) || fresh(cur.dataValues)))
  {
    assert ParseFrom(lines, LineCap, prev + 1, vs) == goal;
    var ell := prev + 1;
    vs' := vs;
    if ell >= |lines| {
      r := Failure(LinePastEnd(ell));
    } else {
      var step := StepBlocks(lines, ell, blocks, vs);
      if step.Failure? {
        r := Failure(step.error);
      } else {
        ghost var s := Step(lines, ell, vs).value;
        assert ParseFrom(lines, LineCap, ell, vs) == Continue(lines, LineCap, s);
        vs' := s.blocks;
        r := Success((step.value.0, step.value.1, step.value.1 >= |lines| - 1 || step.value.1 > LineCap));
      }
    }
  }

  /** The whole scan of `lines`, stopping after the first line past LineCap: the blocks
      read, in file order, each holding the block value the scan specifies. */
  method ReadMeshtalFile(lines: seq<Words>) returns (r: Result<seq<MeshTalBlock>, ParseError>)
    ensures r.Failure? ==> Parse(lines, LineCap) == Failure(r.error)
    ensures r.Success? ==> Parse(lines, LineCap).Success? && Represents(r.value, Parse(lines, LineCap).value)
  {
    var blocks: seq<MeshTalBlock> := [];
    ghost var vals: seq<Block> := [];
    var ell := -1;
    var stop := false;
    ghost var goal := Parse(lines, LineCap);
    while !stop
      invariant -1 <= ell < |lines|
      invariant Represents(blocks, vals)
      invariant |blocks| > 0 ==> fresh(blocks[|blocks| - 1]) && fresh(blocks[|blocks| - 1].dataValues)
      invariant ell == -1 ==> !stop && ParseFrom(lines, LineCap, 0, vals) == goal
      invariant ell >= 0 ==> Continue(lines, LineCap, Scan(vals, ell)) == goal
      invariant stop <==> ell >= 0 && (ell >= |lines| - 1 || ell > LineCap)
      decreases |lines| - ell
    {
      var step;
      step, vals := ScanLine(lines, ell, blocks, vals, goal);
      if step.Failure? {
        return Failure(step.error);
      }
      blocks, ell, stop := step.value.0, step.value.1, step.value.2;
    }
    assert goal == Success(vals);
    r := Success(blocks);
  }
}
