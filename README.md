# MCNP mesh-tally reader and grid, in Dafny

This project models the core of `MMPP.py`, a post-processor for MCNP mesh-tally
("meshtal") output files. The model covers three parts:

- **Bin locators.** `__ChooseCellE/X/Y/Z` turn a physical value into a bin index by
  scanning a boundary list. Energy uses a strict rule (first boundary above the value).
  Coordinates use a non-strict rule (first boundary at or above the value).
- **The `MeshTalBlock` grid.** `SizeDataValues` sizes the counts and a zeroed data array
  of shape `[ng][nx][ny][nz][5]`. The `UnpackGiven*` methods copy fixed channels of that
  array into freshly allocated line (1-D) and plane (2-D) arrays.
- **The `ReadMeshtalfile` scanner.** One forward pass over whitespace-split lines with a
  cursor `ell`. It creates blocks on `Mesh Tally Number`, fills axis and energy boundaries
  from their header lines, sizes the block, and reads the data table row by row into the
  current block's array.

The layout follows the program. Each module is one file:

- `outcomes.dfy` (`Outcomes`): the `Result` type every crash of the program is mapped to.
- `bin_locator.dfy` (`BinLocator`): the two locator rules as functions, their properties,
  and the scanning loops that compute them.
- `grid.dfy` (`Grid`): the value view of a block. The five-dimensional array is one flat
  row-major buffer, and cell `[e][x][y][z][k]` is at `(((e*nx + x)*ny + y)*nz + z)*5 + k`.
  This module also holds the strides, sizing, and the line and plane slices as functions.
- `meshtal_block.dfy` (`MeshTal`): `MeshTalBlock` as a class. Its fields are the lists the
  reader appends to, the counts, and the data `array<real>`. Its methods are the locators,
  `SizeDataValues` and the slice extractors. The locators are proved against the
  `BinLocator` rules, and sizing and the slices against the `Grid` functions.
- `meshtal_scan.dfy` (`MeshtalScan`): what the scanner computes, as functions of the split
  lines. It covers header classification, one pass of the loop (`Step`), the stop test
  and the whole scan (`Parse`), with lemmas for each header kind and for the data table.
- `meshtal_reader.dfy` (`MeshtalReader`): the scanner as the program runs it. A cursor
  loop drives a list of block objects, extends the boundary lists token by token, and
  fills the table with four nested loops writing the current block's array in place.
  `ReadMeshtalFile` is proved to return objects that hold exactly what `Parse` computes.

The crashes of the program are error values:

- `SliceError`: `EmptyAxis`, `NotPlanar`, `IndexOutOfRange`.
- `ParseError`: `LinePastEnd`, `NoCurrentBlock`, `MissingToken`, `NotANumber`, `ShortRow`.
  Each names the line on which the crash happens.

When several crashes are possible, the error is the one Python evaluation order reaches
first.

## Behaviour of the code worth noting

- **Short header lines.** An axis header with exactly three tokens, or an energy header
  with four or fewer, matches its header test and then reads `words[3]` or `words[4]`,
  which crashes (MMPP.py:380, 411). The model gives `MissingToken`. This crash comes
  before the crash for a missing block: the right-hand side `float(words[3])` is
  evaluated before `cur_block.bin_lims`.
- **Bin indices.** The slices index a numpy array, which accepts negative indices from the
  end (MMPP.py:109, 192). The model accepts `-count <= i < count` and wraps negative
  indices (`Grid.Wrap`); anything else is `IndexOutOfRange`. A 1-D slice along an empty
  axis reads nothing, so it returns empty arrays whatever indices it is given.
- **Data running past the input.** A table that needs more rows than the input has
  raises an `IndexError` on `lines[ell]` (MMPP.py:431). The model gives `LinePastEnd`,
  as it does for an empty input (MMPP.py:361).

## Model

| member | source | states |
|---|---|---|
| BinLocator.EnergyBin | MMPP.py:31-35 | the least index whose boundary is strictly above the value, or `len-1` when there is none |
| BinLocator.CoordinateBin | MMPP.py:47-51 | the least index whose boundary is at or above the value, or `len-1` when there is none |
| BinLocator.BinInRange | MMPP.py:31-51 | on a non-empty list both rules give an index in `[0, len)`; on an empty list both give -1 |
| BinLocator.EnergyBinMonotone | MMPP.py:31-35 | a larger energy never falls in an earlier group |
| BinLocator.CoordinateBinMonotone | MMPP.py:47-51 | a larger coordinate never falls in an earlier bin |
| BinLocator.BoundaryValue | MMPP.py:31-51 | on ascending boundaries, a value equal to boundary i is in coordinate bin i but in energy group i+1 (the last group at most) |
| BinLocator.BinBrackets | MMPP.py:31-51 | on ascending boundaries, a value below the last boundary lies between the chosen bin's boundary and the previous one, with the rule's strictness |
| BinLocator.ScanEnergy | MMPP.py:31-35 | the scanning loop with `break` returns `EnergyBin` |
| BinLocator.ScanCoordinate | MMPP.py:47-51 | the scanning loop with `break` returns `CoordinateBin` (the same loop serves y and z, lines 59-63 and 71-75) |
| MeshTal.MeshTalBlock.constructor | MMPP.py:14-24 | a new block holds empty lists, `bin_lims` of four zeros, zero counts and no data |
| MeshTal.MeshTalBlock.ChooseCellE | MMPP.py:28-41 | the energy group of the value; `EmptyAxis` on an empty list, where the diagnostic reads `e_bins[-1]` |
| MeshTal.MeshTalBlock.ChooseCellX | MMPP.py:44-53 | the x bin of the value by the coordinate rule; `EmptyAxis` on an empty list |
| MeshTal.MeshTalBlock.ChooseCellY | MMPP.py:56-65 | the y bin of the value by the coordinate rule; `EmptyAxis` on an empty list |
| MeshTal.MeshTalBlock.ChooseCellZ | MMPP.py:68-77 | the z bin of the value by the coordinate rule; `EmptyAxis` on an empty list |
| Grid.Size | MMPP.py:84-89 | counts equal the list lengths (`ng` one more than the energy boundaries); the lists and `bin_lims` are kept; the buffer has `ng*nx*ny*nz*5` entries, all zero |
| MeshTal.MeshTalBlock.SizeDataValues | MMPP.py:80-89 | the object's new value is `Size` of its old value, in a freshly allocated array |
| Grid.SizeIdempotent | MMPP.py:84-89 | sizing again with unchanged lists gives the same block |
| Grid.SizedCellsAreZero | MMPP.py:89 | every channel of every cell of a freshly sized block is zero |
| Grid.FlatBound | MMPP.py:89 | every in-range cell `[e,x,y,z]` addresses an entry inside the `ng*nx*ny*nz*5` buffer |
| Grid.FlatInjective | MMPP.py:89 | distinct cells have distinct row numbers, so no two cells share buffer entries |
| Grid.LineAlong | MMPP.py:105-111 | a line slice succeeds exactly when the free axis is empty or the fixed indices are accepted; both results have the free axis's length; entry i holds the free axis's centre channel and channel 3 of cell i |
| MeshTal.MeshTalBlock.FillLine | MMPP.py:108-111 | the copy loop writes exactly the centre and value channels of the line into the two arrays |
| MeshTal.MeshTalBlock.UnpackLine | MMPP.py:105-112 | the fresh arrays hold `LineAlong` of the block, and the block is not modified |
| MeshTal.MeshTalBlock.UnpackGivenXYE | MMPP.py:92-112 | the line along z at bins x, y: centres from channel 2, values from channel 3 |
| MeshTal.MeshTalBlock.UnpackGivenXZE | MMPP.py:115-135 | the line along y at bins x, z: centres from channel 1, values from channel 3 |
| MeshTal.MeshTalBlock.UnpackGivenYZE | MMPP.py:138-158 | the line along x at bins y, z: centres from channel 0, values from channel 3 |
| Grid.PlaneAt | MMPP.py:177-197 | `NotPlanar` exactly when a spanning count is at most 1; otherwise `IndexOutOfRange` exactly when the fixed bin or group is rejected; it succeeds exactly when both spans exceed one bin and the indices are accepted, with four `n0×n1` matrices of the two spanning centres, the value and the relative error of cell (i, j) |
| MeshTal.MeshTalBlock.FillPlaneRow | MMPP.py:191-195 | the inner loop fills row i of all four matrices from the cells of that row |
| MeshTal.MeshTalBlock.UnpackPlane | MMPP.py:177-197 | the fresh matrices hold `PlaneAt` of the block, and the block is not modified |
| MeshTal.MeshTalBlock.UnpackGivenXEBins | MMPP.py:161-197 | the y-z plane at x bin x: channels 1, 2, 3, 4 |
| MeshTal.MeshTalBlock.UnpackGivenYEBins | MMPP.py:200-236 | the x-z plane at y bin y: channels 0, 2, 3, 4 |
| MeshTal.MeshTalBlock.UnpackGivenZEBins | MMPP.py:239-274 | the x-y plane at z bin zbin: channels 0, 1, 3, 4 |
| MeshTal.MeshTalBlock.UnpackGivenXE | MMPP.py:277-297 | the plane at the x bin that `CoordinateBin` gives for the value; the energy argument is passed on unchanged as a group index; `EmptyAxis` when there are no x boundaries |
| MeshTal.MeshTalBlock.UnpackGivenYE | MMPP.py:300-319 | the same for the y coordinate |
| MeshTal.MeshTalBlock.UnpackGivenZE | MMPP.py:322-341 | the same for the z coordinate |
| MeshtalScan.Classify | MMPP.py:366-421 | a line of fewer than three tokens carries no header |
| MeshtalScan.RowFromMeaning | MMPP.py:433-437 | a data row converts exactly when tokens 1-5 are present numbers, and then holds their values in order; the first absent token gives `ShortRow` and the first non-number gives `NotANumber` |
| MeshtalScan.RowFrom | MMPP.py:433-437 | converting tokens k to 5 of a row yields exactly `6-k` values on success |
| MeshtalScan.ReadRow | MMPP.py:430-437 | a row index past the input gives `LinePastEnd` (the `IndexError` on `lines[ell]`); a row converts exactly when it has tokens 1-5 and all are numbers, and then holds their five values in order |
| MeshtalScan.ReadRows | MMPP.py:426-437 | the rows of a table, read in the nested loops' order, yield five values per row on success |
| MeshtalScan.ReadRowsFirstFailure | MMPP.py:426-437 | a table's rows succeed exactly when every row does; a failure is that of the first failing row |
| MeshtalScan.ReadRowsFailurePersists | MMPP.py:426-437 | once a prefix of the rows fails, every longer run fails with the same error |
| MeshtalScan.RowsPastEnd | MMPP.py:430-431 | a table needing more lines than remain fails |
| MeshtalScan.AddAxisBounds | MMPP.py:377-380 | the header's values are appended to that axis and the first is recorded in `bin_lims`; the other two axes, the energy boundaries, the other `bin_lims` entries, counts and data are kept |
| MeshtalScan.OtherAxesKept | MMPP.py:374-401 | an axis header leaves the other two axes' boundaries as they were |
| MeshtalScan.AddEnergyBounds | MMPP.py:408-415 | the values are appended to the energy boundaries, the first is recorded in `bin_lims[3]`, and the block is sized: `ng` one more than the energy boundaries, `nx`, `ny`, `nz` the axis list lengths, all-zero data |
| MeshtalScan.PlainLineIgnored | MMPP.py:366-418 | a line that carries no header, including every line of fewer than three tokens, leaves the blocks and the cursor as they were |
| MeshtalScan.MeshTallyStartsBlock | MMPP.py:366-371 | `Mesh Tally Number` appends exactly one new empty block, which becomes current |
| MeshtalScan.AxisHeaderStep | MMPP.py:374-401 | an axis header with no first boundary fails even with no block; otherwise it fails with `NoCurrentBlock` without a block and with `NotANumber` on a non-numeric boundary, and on success appends the `len(words)-3` values `words[3..]` in order and sets `bin_lims[i]` to `words[3]`; the new current block is exactly `AddAxisBounds` of the old one, so nothing else in it changes; earlier blocks are kept |
| MeshtalScan.EnergyHeaderStep | MMPP.py:404-415 | the same checks and errors at `words[4]`; then it appends the `len(words)-4` values and sizes the block, with `ng` one more than the boundaries and all data zero; the new current block is exactly `AddEnergyBounds` of the old one, so the axis lists and the other `bin_lims` entries are kept |
| MeshtalScan.TableCells | MMPP.py:426-437 | in a table read after line h, channel k of every cell is token k+1 of that cell's line |
| MeshtalScan.TableRowsDistinct | MMPP.py:426-437 | each cell's row is one of the `ng*nx*ny*nz` lines after the header, and distinct cells have distinct rows, so every cell is written once |
| MeshtalScan.DataTableStep | MMPP.py:418-437 | a table needs a current block; it succeeds exactly when each of the next `ng*nx*ny*nz` lines is a valid row; a failure carries the error of the first bad row, which is `LinePastEnd` at the end of the input when the table runs past it and every row before is valid; it moves the cursor by exactly that many lines; each cell `[e,x,y,z,k]` gets token k+1 of line `h+1+(((e*nx+x)*ny+y)*nz+z)`; nothing else in the block changes |
| MeshtalScan.AxisStep | MMPP.py:374-401 | an axis header keeps the blocks well formed and their number unchanged and consumes only its own line; it fails only with `MissingToken`, `NoCurrentBlock` or `NotANumber` at that line |
| MeshtalScan.EnergyStep | MMPP.py:404-415 | the energy header keeps the blocks well formed and their number unchanged and consumes only its own line; it fails only with `MissingToken`, `NoCurrentBlock` or `NotANumber` at that line |
| MeshtalScan.TableStep | MMPP.py:418-437 | a data table fails with `NoCurrentBlock` without a block; on success it keeps the blocks well formed and moves the cursor to the header plus the block's cell count, still on an input line |
| MeshtalScan.Step | MMPP.py:359-437 | one pass keeps every block well formed, never removes a block, and leaves the cursor on a line of the input |
| MeshtalScan.ParseFrom | MMPP.py:359-363 | the scan from a given line: past the input it fails with `LinePastEnd`; a successful scan keeps every block well formed and removes none |
| MeshtalScan.Continue | MMPP.py:440-441 | the stop test `ell >= num_lines-1 or ell > cap` after a pass, with the cap a parameter: once it holds, the scan ends with the blocks read so far; a successful continuation keeps every block well formed and removes none |
| MeshtalScan.ContinueGoesOn | MMPP.py:359-441 | while the stop test does not hold, the scan goes on with the pass over line `ell+1` and the blocks read so far (the `while not stop_flag` loop) |
| MeshtalScan.Parse | MMPP.py:356-442 | a successful scan yields well-formed blocks |
| MeshtalScan.EmptyInput | MMPP.py:359-361 | an empty input fails on its first line |
| MeshtalReader.StoreRow | MMPP.py:433-437 | writes tokens 1-5 of a row into the five channels of its cell; gives the row's error otherwise; leaves the rest of the array alone |
| MeshtalReader.ReadAxisBounds | MMPP.py:377-380 | the append loop leaves the block as `AddAxisBounds` of its old value, keeping its array, or fails with `NotANumber` exactly when a token is not a number |
| MeshtalReader.ReadEnergyBounds | MMPP.py:408-415 | the block becomes `AddEnergyBounds` of its old value, with a fresh array, or fails with `NotANumber` exactly when a token is not a number |
| MeshtalReader.FillDataTable | MMPP.py:422-437 | the four nested loops leave the array holding exactly the rows `ReadRows` reads after the header, and return the index of the last row; on failure, the table's error |
| MeshtalReader.FillEnergyGroup | MMPP.py:426-437 | the rows of one energy group extend the filled prefix of the table |
| MeshtalReader.FillAlongY | MMPP.py:428-437 | the rows of one x bin extend the filled prefix of the table |
| MeshtalReader.FillAlongZ | MMPP.py:429-437 | the rows of one (x, y) column extend the filled prefix of the table |
| MeshtalReader.StoreNextRow | MMPP.py:430-437 | one more row read extends the filled prefix by five entries; a failing row fails the whole table |
| MeshtalReader.AxisLine | MMPP.py:374-401 | on the current block object, does what `Step` specifies for an axis header |
| MeshtalReader.EnergyLine | MMPP.py:404-415 | on the current block object, does what `Step` specifies for the energy header |
| MeshtalReader.TableLine | MMPP.py:418-437 | on the current block object, does what `Step` specifies for a data table |
| MeshtalReader.AppendBlock | MMPP.py:370-371 | appends a fresh empty block object, which mirrors `EmptyBlock` and becomes current |
| MeshtalReader.CurrentHeader | MMPP.py:374-437 | a header acting on the current block leaves the list of objects mirroring the `Step` result |
| MeshtalReader.StepBlocks | MMPP.py:365-437 | one pass over a line leaves the objects mirroring `Step`, or gives its error |
| MeshtalReader.ScanLine | MMPP.py:359-442 | one turn of the loop: the cursor advances past one pass, and the stop flag is set exactly when the cursor reaches the last line or passes line 100 |
| MeshtalReader.ReadMeshtalFile | MMPP.py:345-448 | the scan fails exactly when `Parse` does, with its error; otherwise it returns valid block objects holding exactly the blocks `Parse` computes |

## Left out

- File opening, `readlines` and `close` (MMPP.py:346-350, 446) are not modelled. The input
  is the sequence of lines already split into tokens.
- `float(...)` is not modelled. A token is a number or a word, decided before the scan.
  Tokens such as "nan", "inf" and "-inf", which `float()` accepts, are outside the model:
  a number token stands for a finite real. A NaN boundary compares false against every
  value, and no `real` behaves like that, so the locator contracts and lemmas do not cover
  non-finite boundaries or values.
- All `print` diagnostics are left out. Only the crash of the locators' diagnostic on an
  empty list is kept, as `EmptyAxis`.
- `exit()` in the plane slices is modelled as the error `NotPlanar`, not as the process
  ending.
- Floating point is modelled as `real`. For finite values the locators only compare,
  so rounding plays no part; NaN and infinities are left out as said above.
- Slice arguments are `int`. Passing a float index to numpy, which raises, is not
  modelled.
- The numpy array's shape metadata is left out. The data is a flat buffer of
  `ng*nx*ny*nz*5` reals, and an unsized block holds an empty buffer where the program
  holds `[]`.
- The line cap of 100 is the constant `LineCap` in the method. The scan functions take
  the cap as a parameter.
- `menu()`, the interactive main and the plotting script are not part of this model.
- MeshtalReader.ReadMeshtalFile: only promises that the last block and its array are not
  shared with earlier blocks. The program creates every block fresh, so all blocks are
  pairwise unshared. The proof only needs the current block to be separate.
- MeshtalReader.ReadMeshtalFile: on failure, states only the error. The program has
  crashed by then, so the partially filled objects are not described.
