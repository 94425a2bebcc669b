/**
 * What the meshtal reader computes, as functions of the split lines: the header a line
 * carries, what one pass of the scan loop does to the list of blocks, and the whole
 * scan. Every crash of the program is an error naming the line it happened on.
 */
module MeshtalScan {
  import opened Outcomes
  import opened Grid

  /** A token of a split line: a number when the float conversion accepts it, a word otherwise. */
  datatype Token = Word(text: string) | Num(value: real)

  type Words = seq<Token>

  datatype ParseError =
    | LinePastEnd(line: int)     // a line index at or past the end of the input
    | NoCurrentBlock(line: int)  // a header before any "Mesh Tally Number" line
    | MissingToken(line: int)    // the first boundary of an axis or energy header is absent
    | NotANumber(line: int)      // a token that must be a number is not
    | ShortRow(line: int)        // a data row with fewer than six tokens

  /** The scan gives up once the last line it processed lies past this index. */
  const LineCap := 100

  datatype Header = MeshTally | AxisBounds(axis: Axis) | EnergyBounds | DataTable | NoHeader

  predicate IsWord(t: Token, s: string) {
    t == Word(s)
  }

  /** The header a split line carries; only the first three tokens decide. */
  function Classify(w: Words): (h: Header)
    ensures |w| < 3 ==> h == NoHeader
  {
    if |w| < 3 then NoHeader
    else if IsWord(w[0], "Mesh") && IsWord(w[1], "Tally") && IsWord(w[2], "Number") then MeshTally
    else if IsWord(w[0], "X") && IsWord(w[1], "direction:") then AxisBounds(X)
    else if IsWord(w[0], "Y") && IsWord(w[1], "direction:") then AxisBounds(Y)
    else if IsWord(w[0], "Z") && IsWord(w[1], "direction:") then AxisBounds(Z)
    else if IsWord(w[0], "Energy") && IsWord(w[1], "bin") && IsWord(w[2], "boundaries:") then EnergyBounds
    else if IsWord(w[0], "Energy") && IsWord(w[1], "X") && IsWord(w[2], "Y") then DataTable
    else NoHeader
  }

  predicate AllNum(ts: Words) {
    forall i :: 0 <= i < |ts| ==> ts[i].Num?
  }

  function Values(ts: Words): (vs: seq<real>)
    requires AllNum(ts)
    ensures |vs| == |ts| && forall i :: 0 <= i < |ts| ==> vs[i] == ts[i].value
  {
    seq(|ts|, i requires 0 <= i < |ts| => ts[i].value)
  }

  // ---------------------------------------------------------------- data rows

  /** Tokens k to 5 of a data row converted in order: the first one that is absent or
      not a number decides the error. */
  function RowFrom(w: Words, line: int, k: nat): (r: Result<seq<real>, ParseError>)
    requires 1 <= k <= 6 && (k == 1 || k <= |w|)
    decreases 6 - k
    ensures r.Success? ==> |r.value| == 6 - k
  {
    if k == 6 then Success([])
    else if k >= |w| then Failure(ShortRow(line))
    else if !w[k].Num? then Failure(NotANumber(line))
    else
      match RowFrom(w, line, k + 1)
      case Failure(err) => Failure(err)
      case Success(vs) => Success([w[k].value] + vs)
  }

  /** A row converts exactly when tokens k to 5 are all present numbers, and then holds
      their values in order; otherwise the first absent token gives ShortRow and the first
      non-number gives NotANumber. */
  lemma {:induction false} RowFromMeaning(w: Words, line: int, k: nat)
    requires 1 <= k <= 6 && (k == 1 || k <= |w|)
    decreases 6 - k
    ensures RowFrom(w, line, k).Success? <==> |w| >= 6 && forall i :: k <= i < 6 ==> w[i].Num?
    ensures RowFrom(w, line, k).Success? ==> forall i :: k <= i < 6 ==> RowFrom(w, line, k).value[i - k] == w[i].value
    ensures RowFrom(w, line, k) == Failure(NotANumber(line)) <==> exists i :: k <= i < 6 && i < |w| && !w[i].Num?
    ensures RowFrom(w, line, k) == Failure(ShortRow(line)) <==> |w| < 6 && forall i :: k <= i < |w| ==> w[i].Num?
  {
    if k < 6 && k < |w| && w[k].Num? {
      RowFromMeaning(w, line, k + 1);
    }
  }

  /** Row j of the input: tokens 1 to 5, which become channels 0 to 4 of one cell. */
  function ReadRow(lines: seq<Words>, j: nat): (r: Result<seq<real>, ParseError>)
    ensures j >= |lines| ==> r == Failure(LinePastEnd(j))
    ensures r.Success? <==> j < |lines| && |lines[j]| >= 6 && forall i :: 1 <= i < 6 ==> lines[j][i].Num?
    ensures r.Success? ==> |r.value| == 5 && forall k :: 0 <= k < 5 ==> r.value[k] == lines[j][k + 1].value
  {
    if j >= |lines| then Failure(LinePastEnd(j))
    else
      RowFromMeaning(lines[j], j, 1);
      RowFrom(lines[j], j, 1)
  }

  /** Rows start .. start + count - 1, concatenated; the first row that fails decides the error. */
  function ReadRows(lines: seq<Words>, start: nat, count: nat): (r: Result<seq<real>, ParseError>)
    decreases count
    ensures r.Success? ==> |r.value| == 5 * count
  {
    if count == 0 then Success([])
    else
      match ReadRows(lines, start, count - 1)
      case Failure(err) => Failure(err)
      case Success(vs) =>
        match ReadRow(lines, start + count - 1)
        case Failure(err) => Failure(err)
        case Success(row) => Success(vs + row)
  }

  /** The rows succeed exactly when every row does; when they fail, the error is that of
      the first row that fails. */
  lemma {:induction false} ReadRowsFirstFailure(lines: seq<Words>, start: nat, count: nat)
    ensures ReadRows(lines, start, count).Success? <==> forall j :: start <= j < start + count ==> ReadRow(lines, j).Success?
    ensures ReadRows(lines, start, count).Failure? ==> exists j :: (start <= j < start + count &&
      ReadRow(lines, j) == Failure(ReadRows(lines, start, count).error) &&
      forall j' :: start <= j' < j ==> ReadRow(lines, j').Success?)
    decreases count
  {
    if count > 0 {
      ReadRowsFirstFailure(lines, start, count - 1);
    }
  }

  /** Once a prefix of the rows fails, every longer run of rows fails the same way. */
  lemma {:induction false} ReadRowsFailurePersists(lines: seq<Words>, start: nat, n: nat, m: nat)
    requires n <= m && ReadRows(lines, start, n).Failure?
    ensures ReadRows(lines, start, m) == ReadRows(lines, start, n)
    decreases m
  {
    if m > n {
      ReadRowsFailurePersists(lines, start, n, m - 1);
    }
  }

  /** A table that needs more rows than the input has left fails. */
  lemma RowsPastEnd(lines: seq<Words>, start: nat, count: nat)
    requires count > 0 && start + count > |lines|
    ensures ReadRows(lines, start, count).Failure?
  {
    var j := if start < |lines| then |lines| else start;
    assert !ReadRow(lines, j).Success?;
  }

  // ---------------------------------------------------------------- one pass of the scan

  /** The current block is the one the last "Mesh Tally Number" line created. */
  function Current(bs: seq<Block>): Block
    requires |bs| > 0
  {
    bs[|bs| - 1]
  }

  function ReplaceCurrent(bs: seq<Block>, b: Block): (r: seq<Block>)
    requires |bs| > 0
    ensures |r| == |bs| && r[..|bs| - 1] == bs[..|bs| - 1] && Current(r) == b
  {
    bs[..|bs| - 1] + [b]
  }

  function WithAxisBins(b: Block, a: Axis, bins: seq<real>): Block {
    match a
    case X => b.(xBins := bins)
    case Y => b.(yBins := bins)
    case Z => b.(zBins := bins)
  }

  /** An axis header's boundaries appended to that axis, the first of them recorded as
      the axis's entry of binLims; the counts and the data are left as they are. */
  function AddAxisBounds(b: Block, a: Axis, vals: seq<real>): (r: Block)
    requires |b.binLims| == 4 && |vals| > 0
    ensures AxisBins(r, a) == AxisBins(b, a) + vals
    ensures r.eBins == b.eBins && r.binLims == b.binLims[Channel(a) := vals[0]]
    ensures r.nx == b.nx && r.ny == b.ny && r.nz == b.nz && r.ng == b.ng && r.data == b.data
    ensures forall c :: c != a ==> AxisBins(r, c) == AxisBins(b, c)
  {
    WithAxisBins(b, a, AxisBins(b, a) + vals).(binLims := b.binLims[Channel(a) := vals[0]])
  }

  /** Appending to one axis leaves the other two axes' boundaries as they were. */
  lemma OtherAxesKept(b: Block, a: Axis, vals: seq<real>, c: Axis)
    requires |b.binLims| == 4 && |vals| > 0 && c != a
    ensures AxisBins(AddAxisBounds(b, a, vals), c) == AxisBins(b, c)
  {
  }

  /** The energy header's boundaries appended, the first recorded in binLims, then the
      block sized. */
  function AddEnergyBounds(b: Block, vals: seq<real>): (r: Block)
    requires |b.binLims| == 4 && |vals| > 0
    ensures WellFormed(r)
    ensures r.eBins == b.eBins + vals && r.ng == |b.eBins| + |vals| + 1
    ensures r.xBins == b.xBins && r.yBins == b.yBins && r.zBins == b.zBins
    ensures r.nx == |b.xBins| && r.ny == |b.yBins| && r.nz == |b.zBins|
    ensures r.binLims == b.binLims[3 := vals[0]]
    ensures forall i :: 0 <= i < |r.data| ==> r.data[i] == 0.0
  {
    Size(b.(eBins := b.eBins + vals, binLims := b.binLims[3 := vals[0]]))
  }

  /** The blocks after a pass, and the index of the last line the pass consumed. */
  datatype Scan = Scan(blocks: seq<Block>, last: nat)

  /** An axis header at line ell: boundaries from words[3] on, for the current block. */
  function AxisStep(lines: seq<Words>, ell: nat, blocks: seq<Block>, a: Axis): (r: Result<Scan, ParseError>)
    requires ell < |lines| && AllWellFormed(blocks)
    ensures r.Success? ==> AllWellFormed(r.value.blocks) && r.value.last == ell && |r.value.blocks| == |blocks|
    ensures r.Failure? ==> r.error in {MissingToken(ell), NoCurrentBlock(ell), NotANumber(ell)}
  {
    var w := lines[ell];
    if |w| <= 3 then Failure(MissingToken(ell))
    else if |blocks| == 0 then Failure(NoCurrentBlock(ell))
    else if !AllNum(w[3..]) then Failure(NotANumber(ell))
    else Success(Scan(ReplaceCurrent(blocks, AddAxisBounds(Current(blocks), a, Values(w[3..]))), ell))
  }

  /** The energy header at line ell: boundaries from words[4] on, then the block sized. */
  function EnergyStep(lines: seq<Words>, ell: nat, blocks: seq<Block>): (r: Result<Scan, ParseError>)
    requires ell < |lines| && AllWellFormed(blocks)
    ensures r.Success? ==> AllWellFormed(r.value.blocks) && r.value.last == ell && |r.value.blocks| == |blocks|
    ensures r.Failure? ==> r.error in {MissingToken(ell), NoCurrentBlock(ell), NotANumber(ell)}
  {
    var w := lines[ell];
    if |w| <= 4 then Failure(MissingToken(ell))
    else if |blocks| == 0 then Failure(NoCurrentBlock(ell))
    else if !AllNum(w[4..]) then Failure(NotANumber(ell))
    else Success(Scan(ReplaceCurrent(blocks, AddEnergyBounds(Current(blocks), Values(w[4..]))), ell))
  }

  /** A data table header at line ell: one row per cell of the current block follows. */
  function TableStep(lines: seq<Words>, ell: nat, blocks: seq<Block>): (r: Result<Scan, ParseError>)
    requires ell < |lines| && AllWellFormed(blocks)
    ensures r.Success? ==> AllWellFormed(r.value.blocks) && ell <= r.value.last < |lines| && |r.value.blocks| == |blocks|
    ensures r.Success? ==> |blocks| > 0 && r.value.last == ell + CellCount(Current(blocks))
    ensures |blocks| == 0 ==> r == Failure(NoCurrentBlock(ell))
  {
    if |blocks| == 0 then Failure(NoCurrentBlock(ell))
    else
      var b := Current(blocks);
      CellCountNonNegative(b);
      ReadRowsFirstFailure(lines, ell + 1, CellCount(b));
      match ReadRows(lines, ell + 1, CellCount(b))
      case Failure(err) => Failure(err)
      case Success(vs) => Success(Scan(ReplaceCurrent(blocks, b.(data := vs)), ell + CellCount(b)))
  }

  /** One pass of the scan loop over line ell: the header the line carries is acted on. */
  function Step(lines: seq<Words>, ell: nat, blocks: seq<Block>): (r: Result<Scan, ParseError>)
    requires ell < |lines| && AllWellFormed(blocks)
    ensures r.Success? ==> AllWellFormed(r.value.blocks) && ell <= r.value.last < |lines| && |blocks| <= |r.value.blocks|
  {
    match Classify(lines[ell])
    case NoHeader => Success(Scan(blocks, ell))
    case MeshTally => Success(Scan(blocks + [EmptyBlock], ell))
    case AxisBounds(a) => AxisStep(lines, ell, blocks, a)
    case EnergyBounds => EnergyStep(lines, ell, blocks)
    case DataTable => TableStep(lines, ell, blocks)
  }

  /** The scan from line `next` on, with the blocks read so far: a pass over line `next`,
      then the stop test. */
  function ParseFrom(lines: seq<Words>, cap: int, next: nat, blocks: seq<Block>): (r: Result<seq<Block>, ParseError>)
    requires AllWellFormed(blocks)
    decreases |lines| - next, 1
    ensures r.Success? ==> AllWellFormed(r.value) && |blocks| <= |r.value|
    ensures next >= |lines| ==> r == Failure(LinePastEnd(next))
  {
    if next >= |lines| then Failure(LinePastEnd(next))
    else
      match Step(lines, next, blocks)
      case Failure(err) => Failure(err)
      case Success(s) => Continue(lines, cap, s)
  }

  /** The stop test after a pass: the scan ends once the pass has reached the last line of
      the input or gone past line `cap`, and otherwise goes on with the next line. */
  function Continue(lines: seq<Words>, cap: int, s: Scan): (r: Result<seq<Block>, ParseError>)
    requires AllWellFormed(s.blocks) && s.last < |lines|
    decreases |lines| - s.last, 0
    ensures r.Success? ==> AllWellFormed(r.value) && |s.blocks| <= |r.value|
    ensures s.last >= |lines| - 1 || s.last > cap ==> r == Success(s.blocks)
  {
    if s.last >= |lines| - 1 || s.last > cap then Success(s.blocks)
    else ParseFrom(lines, cap, s.last + 1, s.blocks)
  }

  /** While the stop test fails, the scan goes on with the line after the pass. */
  lemma ContinueGoesOn(lines: seq<Words>, cap: int, s: Scan)
    requires AllWellFormed(s.blocks) && s.last < |lines|
    requires !(s.last >= |lines| - 1 || s.last > cap)
    ensures Continue(lines, cap, s) == ParseFrom(lines, cap, s.last + 1, s.blocks)
  {
  }

  /** The whole scan: from the first line, with no blocks. */
  function Parse(lines: seq<Words>, cap: int): (r: Result<seq<Block>, ParseError>)
    ensures r.Success? ==> AllWellFormed(r.value)
  {
    ParseFrom(lines, cap, 0, [])
  }

  // ---------------------------------------------------------------- what each line does

  /** A line that carries no header (every line of fewer than three tokens among them)
      changes nothing. */
  lemma PlainLineIgnored(lines: seq<Words>, ell: nat, blocks: seq<Block>)
    requires ell < |lines| && AllWellFormed(blocks) && Classify(lines[ell]) == NoHeader
    ensures Step(lines, ell, blocks) == Success(Scan(blocks, ell))
  {
  }

  /** A "Mesh Tally Number" line appends exactly one new, empty block, which becomes current. */
  lemma MeshTallyStartsBlock(lines: seq<Words>, ell: nat, blocks: seq<Block>)
    requires ell < |lines| && AllWellFormed(blocks) && Classify(lines[ell]) == MeshTally
    ensures var r := Step(lines, ell, blocks);
      r.Success? && r.value.last == ell && r.value.blocks[..|blocks|] == blocks &&
      |r.value.blocks| == |blocks| + 1 && Current(r.value.blocks) == EmptyBlock
  {
  }

  /** An axis header: with no first boundary it fails even before a block exists; with
      one, it needs a current block and numbers only; then it appends the |w| - 3 values
      words[3..] in order to that axis of the current block and records words[3] in binLims. */
  lemma AxisHeaderStep(lines: seq<Words>, ell: nat, blocks: seq<Block>, a: Axis)
    requires ell < |lines| && AllWellFormed(blocks) && Classify(lines[ell]) == AxisBounds(a)
    ensures var w, r := lines[ell], Step(lines, ell, blocks);
      && (|w| == 3 ==> r == Failure(MissingToken(ell)))
      && (|w| > 3 && |blocks| == 0 ==> r == Failure(NoCurrentBlock(ell)))
      && (|w| > 3 && |blocks| > 0 && !AllNum(w[3..]) ==> r == Failure(NotANumber(ell)))
      && (r.Success? <==> |w| > 3 && |blocks| > 0 && AllNum(w[3..]))
      && (r.Failure? ==> r.error in {MissingToken(ell), NoCurrentBlock(ell), NotANumber(ell)})
    ensures var w, r := lines[ell], Step(lines, ell, blocks);
      r.Success? ==>
        var before, after := Current(blocks), Current(r.value.blocks);
        && r.value.last == ell
        && |r.value.blocks| == |blocks| && r.value.blocks[..|blocks| - 1] == blocks[..|blocks| - 1]
        && |AxisBins(after, a)| == |AxisBins(before, a)| + |w| - 3
        && AxisBins(after, a)[..|AxisBins(before, a)|] == AxisBins(before, a)
        && (forall i :: 3 <= i < |w| ==> AxisBins(after, a)[|AxisBins(before, a)| + i - 3] == w[i].value)
        && after.binLims[Channel(a)] == w[3].value
        && after.data == before.data
        && after == AddAxisBounds(before, a, Values(w[3..]))
  {
  }

  /** The energy header: the same checks with the first boundary at words[4]; then it
      appends the |w| - 4 values words[4..] to the energy boundaries and sizes the block,
      so its group count is one more than its energy boundaries and its data all zero. */
  lemma EnergyHeaderStep(lines: seq<Words>, ell: nat, blocks: seq<Block>)
    requires ell < |lines| && AllWellFormed(blocks) && Classify(lines[ell]) == EnergyBounds
    ensures var w, r := lines[ell], Step(lines, ell, blocks);
      && (|w| <= 4 ==> r == Failure(MissingToken(ell)))
      && (|w| > 4 && |blocks| == 0 ==> r == Failure(NoCurrentBlock(ell)))
      && (|w| > 4 && |blocks| > 0 && !AllNum(w[4..]) ==> r == Failure(NotANumber(ell)))
      && (r.Success? <==> |w| > 4 && |blocks| > 0 && AllNum(w[4..]))
      && (r.Failure? ==> r.error in {MissingToken(ell), NoCurrentBlock(ell), NotANumber(ell)})
    ensures var w, r := lines[ell], Step(lines, ell, blocks);
      r.Success? ==>
        var before, after := Current(blocks), Current(r.value.blocks);
        && r.value.last == ell
        && |r.value.blocks| == |blocks| && r.value.blocks[..|blocks| - 1] == blocks[..|blocks| - 1]
        && |after.eBins| == |before.eBins| + |w| - 4
        && after.eBins[..|before.eBins|] == before.eBins
        && (forall i :: 4 <= i < |w| ==> after.eBins[|before.eBins| + i - 4] == w[i].value)
        && after.binLims[3] == w[4].value
        && after.ng == |after.eBins| + 1
        && after.nx == |after.xBins| && after.ny == |after.yBins| && after.nz == |after.zBins|
        && (forall i :: 0 <= i < |after.data| ==> after.data[i] == 0.0)
        && after == AddEnergyBounds(before, Values(w[4..]))
  {
  }

  /** A table of vs read for block b fits b's data buffer. */
  lemma TableFits(lines: seq<Words>, start: nat, b: Block, vs: seq<real>)
    requires |b.binLims| == 4 && ReadRows(lines, start, CellCount(b)) == Success(vs)
    ensures WellFormed(b.(data := vs))
  {
  }

  /** Token k + 1 of row start + f is entry f * 5 + k of the rows read from `start`. */
  lemma {:induction false} RowEntry(lines: seq<Words>, start: nat, count: nat, vs: seq<real>, f: int, k: int)
    requires ReadRows(lines, start, count) == Success(vs)
    requires 0 <= f < count && 0 <= k < 5
    ensures f * 5 + k < |vs|
    ensures start + f < |lines| && |lines[start + f]| >= 6 && lines[start + f][k + 1].Num?
    ensures vs[f * 5 + k] == lines[start + f][k + 1].value
    decreases count
  {
    var prefix := ReadRows(lines, start, count - 1);
    var row := ReadRow(lines, start + count - 1);
    assert vs == prefix.value + row.value;
    if f < count - 1 {
      RowEntry(lines, start, count - 1, prefix.value, f, k);
    } else {
      assert row.value[k] == lines[start + f][k + 1].value;
    }
  }

  /** Channel k of cell (e, p) of c is token k + 1 of the row that belongs to that cell
      in a table whose header is line h: line h + 1 + Flat(e, p). */
  predicate CellFromRow(lines: seq<Words>, h: nat, c: Block, e: int, p: Point, k: int)
    requires WellFormed(c) && InGrid(c, e, p) && 0 <= k < 5
  {
    var j := h + 1 + Flat(c.nx, c.ny, c.nz, e, p.x, p.y, p.z);
    j < |lines| && |lines[j]| >= 6 && lines[j][k + 1].Num? && Cell(c, e, p, k) == lines[j][k + 1].value
  }

  /** The row of each cell of a table after line h is one of the lines h + 1 .. h +
      ng*nx*ny*nz, and distinct cells have distinct rows: every cell is written from
      a line of its own. */
  lemma {:induction false} TableRowsDistinct(b: Block, h: nat, e: int, p: Point, e2: int, p2: Point)
    requires InGrid(b, e, p) && InGrid(b, e2, p2)
    ensures h < h + 1 + Flat(b.nx, b.ny, b.nz, e, p.x, p.y, p.z) <= h + CellCount(b)
    ensures (e, p) != (e2, p2) ==> Flat(b.nx, b.ny, b.nz, e, p.x, p.y, p.z) != Flat(b.nx, b.ny, b.nz, e2, p2.x, p2.y, p2.z)
  {
    FlatBound(b.ng, b.nx, b.ny, b.nz, e, p.x, p.y, p.z);
    if Flat(b.nx, b.ny, b.nz, e, p.x, p.y, p.z) == Flat(b.nx, b.ny, b.nz, e2, p2.x, p2.y, p2.z) {
      FlatInjective(b.nx, b.ny, b.nz, e, p.x, p.y, p.z, e2, p2.x, p2.y, p2.z);
    }
  }

  lemma {:induction false} TableCell(lines: seq<Words>, h: nat, b: Block, vs: seq<real>, e: int, p: Point, k: int)
    requires WellFormed(b) && InGrid(b, e, p) && 0 <= k < 5
    requires WellFormed(b.(data := vs)) && ReadRows(lines, h + 1, CellCount(b)) == Success(vs)
    ensures CellFromRow(lines, h, b.(data := vs), e, p, k)
  {
    var f := Flat(b.nx, b.ny, b.nz, e, p.x, p.y, p.z);
    FlatBound(b.ng, b.nx, b.ny, b.nz, e, p.x, p.y, p.z);
    RowEntry(lines, h + 1, CellCount(b), vs, f, k);
  }

  /** Every cell of a table read after line h holds the tokens of its own row. */
  lemma TableCells(lines: seq<Words>, h: nat, b: Block, vs: seq<real>)
    requires WellFormed(b) && WellFormed(b.(data := vs)) && ReadRows(lines, h + 1, CellCount(b)) == Success(vs)
    ensures forall e, p, k :: InGrid(b, e, p) && 0 <= k < 5 ==> CellFromRow(lines, h, b.(data := vs), e, p, k)
  {
    forall e, p, k | InGrid(b, e, p) && 0 <= k < 5
      ensures CellFromRow(lines, h, b.(data := vs), e, p, k)
    {
      TableCell(lines, h, b, vs, e, p, k);
    }
  }

  /** A data table consumes the next ng*nx*ny*nz lines and advances the cursor past them:
      it succeeds exactly when each of those lines is a valid row, and then channel k of
      cell (e, x, y, z) of the current block is token k + 1 of line
      ell + 1 + (((e*nx + x)*ny + y)*nz + z); nothing else in the block changes. */
  lemma DataTableStep(lines: seq<Words>, ell: nat, blocks: seq<Block>)
    requires ell < |lines| && AllWellFormed(blocks) && Classify(lines[ell]) == DataTable
    ensures |blocks| == 0 ==> Step(lines, ell, blocks) == Failure(NoCurrentBlock(ell))
    ensures |blocks| > 0 ==>
      var b, r := Current(blocks), Step(lines, ell, blocks);
      && (r.Success? <==> forall j :: ell < j <= ell + CellCount(b) ==> ReadRow(lines, j).Success?)
      && (ell + CellCount(b) >= |lines| ==> r.Failure?)
      && (r.Failure? ==> exists j :: (ell < j <= ell + CellCount(b) &&
            ReadRow(lines, j) == Failure(r.error) &&
            forall j' :: ell < j' < j ==> ReadRow(lines, j').Success?))
      && (ell + CellCount(b) >= |lines| && (forall j :: ell < j < |lines| ==> ReadRow(lines, j).Success?) ==>
            r == Failure(LinePastEnd(|lines|)))
    ensures |blocks| > 0 && Step(lines, ell, blocks).Success? ==>
      var b, s := Current(blocks), Step(lines, ell, blocks).value;
      var c := Current(s.blocks);
      && s.last == ell + CellCount(b)
      && |s.blocks| == |blocks| && s.blocks[..|blocks| - 1] == blocks[..|blocks| - 1]
      && c == b.(data := c.data) && WellFormed(c)
      && forall e, p, k :: InGrid(c, e, p) && 0 <= k < 5 ==> CellFromRow(lines, ell, c, e, p, k)
  {
    if |blocks| > 0 {
      var b := Current(blocks);
      CellCountNonNegative(b);
      if ell + CellCount(b) >= |lines| && CellCount(b) > 0 {
        RowsPastEnd(lines, ell + 1, CellCount(b));
      }
      var r := ReadRows(lines, ell + 1, CellCount(b));
      ReadRowsFirstFailure(lines, ell + 1, CellCount(b));
      if r.Failure? && ell + CellCount(b) >= |lines| && forall j :: ell < j < |lines| ==> ReadRow(lines, j).Success? {
        var j :| ell < j <= ell + CellCount(b) && ReadRow(lines, j) == Failure(r.error) &&
          forall j' :: ell < j' < j ==> ReadRow(lines, j').Success?;
        assert !ReadRow(lines, |lines|).Success?;
        assert j == |lines|;
      }
      if r.Success? {
        TableFits(lines, ell + 1, b, r.value);
        TableCells(lines, ell, b, r.value);
        assert Step(lines, ell, blocks) == Success(Scan(ReplaceCurrent(blocks, b.(data := r.value)), ell + CellCount(b)));
      }
    }
  }

  // ---------------------------------------------------------------- the whole scan

  /** An empty input fails on its first line. */
  lemma EmptyInput(cap: int)
    ensures Parse([], cap) == Failure(LinePastEnd(0))
  {
  }
}
