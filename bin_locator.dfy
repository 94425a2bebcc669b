/**
 * Resolving a value to a bin along one axis. Bins are identified by their upper
 * boundary; the two rules differ on a value equal to a boundary:
 *  - energy:     the first boundary strictly above the value;
 *  - coordinate: the first boundary at or above the value.
 * When no boundary qualifies both fall back to the last index, |bins| - 1
 * (which is -1 for an empty list).
 */
module BinLocator {

  /** Energy rule, scanning from index a. */
  function FirstAbove(bins: seq<real>, v: real, a: nat): (r: int)
    requires a <= |bins|
    decreases |bins| - a
    ensures (a <= r < |bins| && v < bins[r] && forall j :: a <= j < r ==> bins[j] <= v)
         || (r == |bins| - 1 && forall j :: a <= j < |bins| ==> bins[j] <= v)
  {
    if a == |bins| then |bins| - 1
    else if bins[a] > v then a
    else FirstAbove(bins, v, a + 1)
  }

  /** Coordinate rule, scanning from index a. */
  function FirstAtLeast(bins: seq<real>, v: real, a: nat): (r: int)
    requires a <= |bins|
    decreases |bins| - a
    ensures (a <= r < |bins| && v <= bins[r] && forall j :: a <= j < r ==> bins[j] < v)
         || (r == |bins| - 1 && forall j :: a <= j < |bins| ==> bins[j] < v)
  {
    if a == |bins| then |bins| - 1
    else if v <= bins[a] then a
    else FirstAtLeast(bins, v, a + 1)
  }

  /** The energy group of value v: the least index whose boundary is strictly above v,
      or the last index when there is none. */
  function EnergyBin(bins: seq<real>, v: real): (r: int)
    ensures (0 <= r < |bins| && v < bins[r] && forall j :: 0 <= j < r ==> bins[j] <= v)
         || (r == |bins| - 1 && forall j :: 0 <= j < |bins| ==> bins[j] <= v)
  {
    FirstAbove(bins, v, 0)
  }

  /** The coordinate bin of value v: the least index whose boundary is at or above v,
      or the last index when there is none. */
  function CoordinateBin(bins: seq<real>, v: real): (r: int)
    ensures (0 <= r < |bins| && v <= bins[r] && forall j :: 0 <= j < r ==> bins[j] < v)
         || (r == |bins| - 1 && forall j :: 0 <= j < |bins| ==> bins[j] < v)
  {
    FirstAtLeast(bins, v, 0)
  }

  predicate StrictlyAscending(bins: seq<real>) {
    forall i, j :: 0 <= i < j < |bins| ==> bins[i] < bins[j]
  }

  /** On a non-empty list both rules give a valid index; on an empty one, -1. */
  lemma BinInRange(bins: seq<real>, v: real)
    ensures |bins| > 0 ==> 0 <= EnergyBin(bins, v) < |bins| && 0 <= CoordinateBin(bins, v) < |bins|
    ensures |bins| == 0 ==> EnergyBin(bins, v) == -1 && CoordinateBin(bins, v) == -1
  {
  }

  /** A larger energy never falls in an earlier group (for any boundary list). */
  lemma EnergyBinMonotone(bins: seq<real>, v1: real, v2: real)
    requires v1 <= v2
    ensures EnergyBin(bins, v1) <= EnergyBin(bins, v2)
  {
  }

  /** A larger coordinate never falls in an earlier bin (for any boundary list). */
  lemma CoordinateBinMonotone(bins: seq<real>, v1: real, v2: real)
    requires v1 <= v2
    ensures CoordinateBin(bins, v1) <= CoordinateBin(bins, v2)
  {
  }

  /** The asymmetry between the rules: on strictly ascending boundaries, a value equal to
      boundary i is in coordinate bin i but in energy group i + 1 (the last group at most). */
  lemma BoundaryValue(bins: seq<real>, i: int)
    requires StrictlyAscending(bins) && 0 <= i < |bins|
    ensures CoordinateBin(bins, bins[i]) == i
    ensures EnergyBin(bins, bins[i]) == if i + 1 < |bins| then i + 1 else i
  {
    assert forall j :: 0 <= j < i ==> bins[j] < bins[i];
    assert i + 1 < |bins| ==> bins[i] < bins[i + 1];
  }

  /** On ascending boundaries a value inside the covered range falls in the bin it lies in:
      above the previous boundary and at or below its own (coordinate rule), or at or
      above the previous boundary and strictly below its own (energy rule). */
  lemma BinBrackets(bins: seq<real>, v: real)
    requires StrictlyAscending(bins) && |bins| > 0 && v < bins[|bins| - 1]
    ensures var c := CoordinateBin(bins, v);
      0 <= c < |bins| && v <= bins[c] && (c == 0 || bins[c - 1] < v)
    ensures var g := EnergyBin(bins, v);
      0 <= g < |bins| && v < bins[g] && (g == 0 || bins[g - 1] <= v)
  {
  }

  /** The energy scan of the program: the first boundary above v ends the scan. */
  method ScanEnergy(bins: seq<real>, v: real) returns (index: int)
    ensures index == EnergyBin(bins, v)
  {
    index := |bins| - 1;
    for a := 0 to |bins|
      invariant index == |bins| - 1
      invariant FirstAbove(bins, v, a) == FirstAbove(bins, v, 0)
    {
      if bins[a] > v {
        index := a;
        break;
      }
    }
  }

  /** The coordinate scan of the program: the first boundary at or above v ends the scan. */
  method ScanCoordinate(bins: seq<real>, v: real) returns (index: int)
    ensures index == CoordinateBin(bins, v)
  {
    index := |bins| - 1;
    for a := 0 to |bins|
      invariant index == |bins| - 1
      invariant FirstAtLeast(bins, v, a) == FirstAtLeast(bins, v, 0)
    {
      if v <= bins[a] {
        index := a;
        break;
      }
    }
  }
}
