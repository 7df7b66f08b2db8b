/**
 * The boundary clusterer behind the "rings" outline: selected splats are
 * hashed into x/y grid cells, and a cell whose occupied-neighbour coverage is
 * below a threshold contributes its splats to the boundary set.
 */
module Boundary {
  import opened Wrappers
  import opened Sets
  import opened Numbers

  /**
   * One grid coordinate, `Math.floor(p / cellSize)`. A coordinate read from
   * outside the position buffer is `undefined`, which turns into NaN; the
   * string key then reads "NaN", and NaN plus any offset is NaN again.
   */
  datatype Coord = Num(n: int) | NaN

  /** The `${x},${y}` key of a grid cell. */
  datatype CellKey = CellKey(x: Coord, y: Coord)

  /** `options` of `setOutlineBoundaryParameters`, as stored on the primitive. */
  datatype Params = Params(cellMultiplier: real, minCellSize: real, neighborRange: int, minCoverage: real)

  /** The constructor's defaults: 2.5, 0.5, 1, 0.75. */
  const DefaultParams: Params := Params(2.5, 0.5, 1, 0.75)

  /** `_outlineBoundaryStats`. */
  datatype Stats = Stats(
    selectedCount: nat,
    boundaryCount: nat,
    cellSize: real,
    cellMultiplier: real,
    minCellSize: real,
    gridCellCount: nat,
    neighborRange: int,
    coverageThreshold: real,
    fallback: bool)

  /** `clamp(round(neighborRange), 1, 4)`; the stored range is always a whole number. */
  function NeighborRange(p: Params): (r: int)
    ensures 1 <= r <= 4
  {
    ClampInt(p.neighborRange, 1, 4)
  }

  /** `clamp(minCoverage, 0, 1)`. */
  function CoverageThreshold(p: Params): (t: real)
    ensures 0.0 <= t <= 1.0
  {
    ClampReal(p.minCoverage, 0.0, 1.0)
  }

  /** `(2r+1)^2 - 1`: the number of neighbour offsets around a cell. */
  function TotalNeighborSlots(r: int): (n: int)
    requires r >= 1
    ensures n >= 8
  {
    (2 * r + 1) * (2 * r + 1) - 1
  }

  // ---------------------------------------------------------------------------
  // Representative radius

  /** A buffer element, or 0 where `Math.abs(undefined) || 0.0` reads past the end. */
  function ComponentOr0(buf: seq<real>, k: int): real
  {
    if 0 <= k < |buf| then buf[k] else 0.0
  }

  /** `Math.max(|sx|, |sy|)` for splat `i`. */
  function SplatScale(scales: seq<real>, i: int): real
  {
    MaxReal(AbsReal(ComponentOr0(scales, 3 * i)), AbsReal(ComponentOr0(scales, 3 * i + 1)))
  }

  /** The selected splats whose scale is a usable (positive) sample. */
  ghost function SampleSet(scales: Option<seq<real>>, sel: set<int>): set<int>
  {
    if scales.None? then {} else set i | i in sel && SplatScale(scales.value, i) > 0.0
  }

  /** The sum of the splat scales over a set of splats. */
  ghost function ScaleSum(scales: seq<real>, s: set<int>): real
    decreases s
  {
    if |s| == 0 then 0.0 else var i := Pick(s); SplatScale(scales, i) + ScaleSum(scales, s - {i})
  }

  /** Any element can be taken out of the sum first. */
  lemma ScaleSumPick(scales: seq<real>, s: set<int>, y: int)
    requires y in s
    ensures ScaleSum(scales, s) == SplatScale(scales, y) + ScaleSum(scales, s - {y})
    decreases |s|
  {
    var x := Pick(s);
    if x != y {
      ScaleSumPick(scales, s - {x}, y);
      ScaleSumPick(scales, s - {y}, x);
      assert s - {x} - {y} == s - {y} - {x};
    }
  }

  /** Mean of the positive samples, or `Math.max(outlineWidth, 1)` if there is none. */
  ghost function AverageScale(scales: Option<seq<real>>, sel: set<int>, outlineWidth: real): real
  {
    var samples := SampleSet(scales, sel);
    if |samples| > 0 then ScaleSum(scales.value, samples) / (|samples| as real)
    else MaxReal(outlineWidth, 1.0)
  }

  /** `max(averageScale * max(cellMultiplier, 0.1), max(minCellSize, 0.01))`. */
  ghost function CellSize(scales: Option<seq<real>>, sel: set<int>, outlineWidth: real, p: Params): (cs: real)
    ensures cs >= MaxReal(p.minCellSize, 0.01) && cs >= 0.01
  {
    MaxReal(AverageScale(scales, sel, outlineWidth) * MaxReal(p.cellMultiplier, 0.1), MaxReal(p.minCellSize, 0.01))
  }

  // ---------------------------------------------------------------------------
  // Grid

  function CoordOf(positions: seq<real>, k: int, cellSize: real): Coord
    requires cellSize > 0.0
  {
    if 0 <= k < |positions| then Num((positions[k] / cellSize).Floor) else NaN
  }

  /** The cell of splat `i`: the floor of its x and y over the cell size. */
  function CellOf(positions: seq<real>, cellSize: real, i: int): CellKey
    requires cellSize > 0.0
  {
    CellKey(CoordOf(positions, 3 * i, cellSize), CoordOf(positions, 3 * i + 1, cellSize))
  }

  /** The occupied cells: the keys of the grid map. */
  ghost function Cells(positions: seq<real>, cellSize: real, s: set<int>): set<CellKey>
    requires cellSize > 0.0
  {
    set i | i in s :: CellOf(positions, cellSize, i)
  }

  /** The splats of `s` that hash to cell `c`. */
  ghost function Members(positions: seq<real>, cellSize: real, s: set<int>, c: CellKey): set<int>
    requires cellSize > 0.0
  {
    set i | i in s && CellOf(positions, cellSize, i) == c
  }

  function AddCoord(c: Coord, d: int): Coord
  {
    match c
    case Num(n) => Num(n + d)
    case NaN => NaN
  }

  /** The key of the cell at offset (dx, dy). */
  function Shift(c: CellKey, dx: int, dy: int): CellKey
  {
    CellKey(AddCoord(c.x, dx), AddCoord(c.y, dy))
  }

  /** Occupied neighbours at column offset `dx` and row offsets in [lo, hi), skipping (0, 0). */
  function RowHits(c: CellKey, keys: set<CellKey>, dx: int, lo: int, hi: int): nat
    decreases hi - lo
  {
    if hi <= lo then 0
    else RowHits(c, keys, dx, lo, hi - 1) + (if !(dx == 0 && hi - 1 == 0) && Shift(c, dx, hi - 1) in keys then 1 else 0)
  }

  /** Occupied neighbours at column offsets in [lo, hi), each over rows [-r, r]. */
  function GridHits(c: CellKey, keys: set<CellKey>, r: int, lo: int, hi: int): nat
    decreases hi - lo
  {
    if hi <= lo then 0
    else GridHits(c, keys, r, lo, hi - 1) + RowHits(c, keys, hi - 1, -r, r + 1)
  }

  /** `neighborHits`: occupied cells among the (2r+1)^2 - 1 neighbours of `c`. */
  function NeighborHits(c: CellKey, keys: set<CellKey>, r: int): nat
  {
    GridHits(c, keys, r, -r, r + 1)
  }

  /** `coverage < coverageThreshold` with `coverage = neighborHits / totalNeighborSlots`. */
  predicate IsBoundaryCell(c: CellKey, keys: set<CellKey>, r: int, threshold: real)
    requires r >= 1
  {
    Coverage(NeighborHits(c, keys, r), TotalNeighborSlots(r)) < threshold
  }

  /** The fraction of the neighbour slots that are occupied. */
  function Coverage(hits: nat, slots: int): real
    requires slots > 0
  {
    (hits as real) / (slots as real)
  }

  /** The splats of boundary cells. */
  ghost function BoundaryCandidates(sel: set<int>, positions: seq<real>, cellSize: real, r: int, threshold: real): set<int>
    requires cellSize > 0.0 && r >= 1
  {
    var keys := Cells(positions, cellSize, sel);
    set i | i in sel && IsBoundaryCell(CellOf(positions, cellSize, i), keys, r, threshold)
  }

  /** What `_computeBoundaryIndices` returns and records, as a function of its inputs. */
  ghost function BoundaryResult(sel: set<int>, positions: Option<seq<real>>, scales: Option<seq<real>>,
                                outlineWidth: real, p: Params): (set<int>, Stats)
  {
    var r := NeighborRange(p);
    var t := CoverageThreshold(p);
    if |sel| == 0 then
      ({}, Stats(0, 0, 0.0, p.cellMultiplier, p.minCellSize, 0, r, t, false))
    else if positions.None? then
      (sel, Stats(|sel|, |sel|, 0.0, p.cellMultiplier, p.minCellSize, 0, r, t, true))
    else
      var cs := CellSize(scales, sel, outlineWidth, p);
      var keys := Cells(positions.value, cs, sel);
      var b := BoundaryCandidates(sel, positions.value, cs, r, t);
      var fallback := b == {};
      var res := if fallback then sel else b;
      (res, Stats(|sel|, |res|, cs, MaxReal(p.cellMultiplier, 0.1), MaxReal(p.minCellSize, 0.01),
                  |keys|, r, t, fallback))
  }

  // ---------------------------------------------------------------------------
  // The algorithm

  /** The nested dx/dy scan that counts a cell's occupied neighbours. */
  method CountNeighborHits(c: CellKey, keys: set<CellKey>, r: int) returns (hits: nat)
    requires r >= 1
    ensures hits == NeighborHits(c, keys, r)
  {
    hits := 0;
    var dx := -r;
    while dx <= r
      invariant -r <= dx <= r + 1
      invariant hits == GridHits(c, keys, r, -r, dx)
    {
      var dy := -r;
      while dy <= r
        invariant -r <= dy <= r + 1
        invariant hits == GridHits(c, keys, r, -r, dx) + RowHits(c, keys, dx, -r, dy)
      {
        if !(dx == 0 && dy == 0) && Shift(c, dx, dy) in keys {
          hits := hits + 1;
        }
        dy := dy + 1;
      }
      dx := dx + 1;
    }
  }

  /** Adding one splat to the examined part adds it to the samples, and to their count and sum, iff its scale is positive. */
  lemma SampleSetAdd(scales: seq<real>, samples: set<int>, done: set<int>, i: int)
    requires samples == SampleSet(Some(scales), done)
    requires i !in done
    ensures var next := SampleSet(Some(scales), done + {i});
            if SplatScale(scales, i) > 0.0 then
              && next == samples + {i} && |next| == |samples| + 1
              && ScaleSum(scales, next) == ScaleSum(scales, samples) + SplatScale(scales, i)
            else next == samples
  {
    if SplatScale(scales, i) > 0.0 {
      assert SampleSet(Some(scales), done + {i}) == samples + {i};
      ScaleSumPick(scales, samples + {i}, i);
      assert samples + {i} - {i} == samples;
    } else {
      assert SampleSet(Some(scales), done + {i}) == samples;
    }
  }

  /** The sampling loop: the sum and number of the positive splat scales. */
  method SumSampleScales(sel: set<int>, scales: seq<real>) returns (sum: real, count: nat)
    ensures count == |SampleSet(Some(scales), sel)|
    ensures sum == ScaleSum(scales, SampleSet(Some(scales), sel))
  {
    sum := 0.0;
    count := 0;
    ghost var samples: set<int> := {};
    var rest := sel;
    ghost var done: set<int> := {};
    while |rest| != 0
      invariant done + rest == sel && done !! rest
      invariant samples == SampleSet(Some(scales), done)
      invariant count == |samples|
      invariant sum == ScaleSum(scales, samples)
      decreases |rest|
    {
      var i := Choose(rest);
      var m := SplatScale(scales, i);
      SampleSetAdd(scales, samples, done, i);
      if m > 0.0 {
        sum := sum + m;
        count := count + 1;
        samples := samples + {i};
      }
      rest := rest - {i};
      done := done + {i};
    }
    assert done == sel;
  }

  /** The representative radius: the mean positive scale, else `Math.max(outlineWidth, 1)`. */
  method AverageScaleOf(sel: set<int>, scales: Option<seq<real>>, outlineWidth: real) returns (average: real)
    ensures average == AverageScale(scales, sel, outlineWidth)
  {
    var sum, count := 0.0, 0;
    if scales.Some? {
      sum, count := SumSampleScales(sel, scales.value);
    }
    average := if count > 0 then sum / (count as real) else MaxReal(outlineWidth, 1.0);
  }

  lemma CellsAdd(pos: seq<real>, cs: real, done: set<int>, i: int)
    requires cs > 0.0
    ensures Cells(pos, cs, done + {i}) == Cells(pos, cs, done) + {CellOf(pos, cs, i)}
  {
  }

  lemma MembersAdd(pos: seq<real>, cs: real, done: set<int>, i: int, c: CellKey)
    requires cs > 0.0
    ensures Members(pos, cs, done + {i}, c)
            == Members(pos, cs, done, c) + (if CellOf(pos, cs, i) == c then {i} else {})
  {
  }

  lemma MembersOfUnoccupied(pos: seq<real>, cs: real, done: set<int>, c: CellKey)
    requires cs > 0.0 && c !in Cells(pos, cs, done)
    ensures Members(pos, cs, done, c) == {}
  {
    forall j | j in done
      ensures CellOf(pos, cs, j) != c
    {
      assert CellOf(pos, cs, j) in Cells(pos, cs, done);
    }
  }

  /** `grid` buckets exactly the splats of `done` by cell. */
  ghost predicate IsGridOf(grid: map<CellKey, set<int>>, pos: seq<real>, cs: real, done: set<int>)
    requires cs > 0.0
  {
    && grid.Keys == Cells(pos, cs, done)
    && forall c :: c in grid ==> grid[c] == Members(pos, cs, done, c)
  }

  /** Appending splat `i` to the bucket of cell `c`, creating the bucket if needed. */
  function AddToCell(grid: map<CellKey, set<int>>, c: CellKey, i: int): map<CellKey, set<int>>
  {
    if c in grid then grid[c := grid[c] + {i}] else grid[c := {i}]
  }

  lemma AddToCellKeepsGrid(grid: map<CellKey, set<int>>, pos: seq<real>, cs: real, done: set<int>, i: int)
    requires cs > 0.0 && IsGridOf(grid, pos, cs, done)
    ensures IsGridOf(AddToCell(grid, CellOf(pos, cs, i), i), pos, cs, done + {i})
  {
    var c := CellOf(pos, cs, i);
    var g := AddToCell(grid, c, i);
    CellsAdd(pos, cs, done, i);
    forall d | d in g
      ensures g[d] == Members(pos, cs, done + {i}, d)
    {
      MembersAdd(pos, cs, done, i, d);
      if d == c && c !in grid {
        MembersOfUnoccupied(pos, cs, done, c);
      }
    }
  }

  /** The bucketing loop: each occupied cell mapped to the selected splats in it. */
  method BuildGrid(sel: set<int>, pos: seq<real>, cs: real) returns (grid: map<CellKey, set<int>>)
    requires cs > 0.0
    ensures grid.Keys == Cells(pos, cs, sel)
    ensures forall c :: c in grid ==> grid[c] == Members(pos, cs, sel, c)
  {
    grid := map[];
    var rest := sel;
    ghost var done: set<int> := {};
    while |rest| != 0
      invariant done + rest == sel && done !! rest
      invariant IsGridOf(grid, pos, cs, done)
      decreases |rest|
    {
      var i := Choose(rest);
      AddToCellKeepsGrid(grid, pos, cs, done, i);
      grid := AddToCell(grid, CellOf(pos, cs, i), i);
      rest := rest - {i};
      done := done + {i};
    }
    assert done == sel;
  }

  /** The splats of `sel` whose cell is among `scanned` and is a boundary cell. */
  ghost predicate ScannedBoundary(boundary: set<int>, sel: set<int>, pos: seq<real>, cs: real,
                                  keys: set<CellKey>, scanned: set<CellKey>, r: int, t: real)
    requires cs > 0.0 && r >= 1
  {
    forall i :: i in boundary <==>
      (i in sel && CellOf(pos, cs, i) in scanned && IsBoundaryCell(CellOf(pos, cs, i), keys, r, t))
  }

  /** The scan over occupied cells: the splats of every low-coverage cell. */
  method ScanCells(sel: set<int>, pos: seq<real>, cs: real, grid: map<CellKey, set<int>>, r: int, t: real)
    returns (boundary: set<int>)
    requires cs > 0.0 && r >= 1
    requires grid.Keys == Cells(pos, cs, sel)
    requires forall c :: c in grid ==> grid[c] == Members(pos, cs, sel, c)
    ensures boundary == BoundaryCandidates(sel, pos, cs, r, t)
  {
    var keys := grid.Keys;
    boundary := {};
    var todo := keys;
    ghost var scanned: set<CellKey> := {};
    while |todo| != 0
      invariant scanned + todo == keys && scanned !! todo
      invariant ScannedBoundary(boundary, sel, pos, cs, keys, scanned, r, t)
      decreases |todo|
    {
      var c := Choose(todo);
      boundary := ScanCell(boundary, c, grid, sel, pos, cs, keys, scanned, r, t);
      todo := todo - {c};
      scanned := scanned + {c};
    }
    ScanComplete(boundary, sel, pos, cs, keys, scanned, r, t);
  }

  /** One step of the scan: the splats of cell `c` join the result iff its coverage is below the threshold. */
  method ScanCell(boundary: set<int>, c: CellKey, grid: map<CellKey, set<int>>, ghost sel: set<int>, pos: seq<real>,
                  cs: real, keys: set<CellKey>, ghost scanned: set<CellKey>, r: int, t: real)
    returns (boundary': set<int>)
    requires cs > 0.0 && r >= 1
    requires c in grid && grid[c] == Members(pos, cs, sel, c)
    requires ScannedBoundary(boundary, sel, pos, cs, keys, scanned, r, t)
    ensures ScannedBoundary(boundary', sel, pos, cs, keys, scanned + {c}, r, t)
  {
    var hits := CountNeighborHits(c, keys, r);
    ScanStep(boundary, sel, pos, cs, keys, scanned, c, r, t);
    boundary' := boundary;
    if Coverage(hits, TotalNeighborSlots(r)) < t {
      boundary' := boundary + grid[c];
    }
  }

  /** Scanning one more cell adds its members exactly when it is a boundary cell. */
  lemma ScanStep(boundary: set<int>, sel: set<int>, pos: seq<real>, cs: real,
                 keys: set<CellKey>, scanned: set<CellKey>, c: CellKey, r: int, t: real)
    requires cs > 0.0 && r >= 1
    requires ScannedBoundary(boundary, sel, pos, cs, keys, scanned, r, t)
    ensures ScannedBoundary(if IsBoundaryCell(c, keys, r, t) then boundary + Members(pos, cs, sel, c) else boundary,
                            sel, pos, cs, keys, scanned + {c}, r, t)
  {
  }

  lemma ScanComplete(boundary: set<int>, sel: set<int>, pos: seq<real>, cs: real,
                     keys: set<CellKey>, scanned: set<CellKey>, r: int, t: real)
    requires cs > 0.0 && r >= 1
    requires keys == Cells(pos, cs, sel) && scanned == keys
    requires ScannedBoundary(boundary, sel, pos, cs, keys, scanned, r, t)
    ensures boundary == BoundaryCandidates(sel, pos, cs, r, t)
  {
    var b := BoundaryCandidates(sel, pos, cs, r, t);
    forall i
      ensures i in boundary <==> i in b
    {
      if i in sel {
        assert CellOf(pos, cs, i) in Cells(pos, cs, sel);
      }
    }
  }

  /** `_computeBoundaryIndices`: the boundary set and the statistics it records. */
  method ComputeBoundaryIndices(sel: set<int>, positions: Option<seq<real>>, scales: Option<seq<real>>,
                                outlineWidth: real, p: Params)
    returns (res: set<int>, stats: Stats)
    ensures (res, stats) == BoundaryResult(sel, positions, scales, outlineWidth, p)
  {
    var r := NeighborRange(p);
    var t := CoverageThreshold(p);
    if |sel| == 0 {
      return {}, Stats(0, 0, 0.0, p.cellMultiplier, p.minCellSize, 0, r, t, false);
    }
    if positions.None? {
      return sel, Stats(|sel|, |sel|, 0.0, p.cellMultiplier, p.minCellSize, 0, r, t, true);
    }
    var pos := positions.value;
    var average := AverageScaleOf(sel, scales, outlineWidth);
    var cellMultiplier := MaxReal(p.cellMultiplier, 0.1);
    var minCellSize := MaxReal(p.minCellSize, 0.01);
    var cs := MaxReal(average * cellMultiplier, minCellSize);
    assert cs == CellSize(scales, sel, outlineWidth, p);
    var grid := BuildGrid(sel, pos, cs);
    assert |grid| == |grid.Keys|;
    var boundary := ScanCells(sel, pos, cs, grid, r, t);
    var fallback := boundary == {};
    res := if fallback then sel else boundary;
    stats := Stats(|sel|, |res|, cs, cellMultiplier, minCellSize, |grid|, r, t, fallback);
  }

  // ---------------------------------------------------------------------------
  // Properties

  /** Every neighbour of `c` within range `r` (the centre included) is an occupied cell. */
  ghost predicate Surrounded(c: CellKey, keys: set<CellKey>, r: int)
  {
    forall dx, dy :: -r <= dx <= r && -r <= dy <= r ==> Shift(c, dx, dy) in keys
  }

  lemma {:induction false} FullRow(c: CellKey, keys: set<CellKey>, dx: int, lo: int, hi: int)
    requires lo <= hi
    requires forall dy :: lo <= dy < hi ==> Shift(c, dx, dy) in keys
    ensures RowHits(c, keys, dx, lo, hi) == (hi - lo) - (if dx == 0 && lo <= 0 < hi then 1 else 0)
    decreases hi - lo
  {
    if hi > lo {
      FullRow(c, keys, dx, lo, hi - 1);
    }
  }

  lemma {:induction false} FullGrid(c: CellKey, keys: set<CellKey>, r: int, lo: int, hi: int)
    requires r >= 0 && lo <= hi
    requires forall dx, dy :: lo <= dx < hi && -r <= dy <= r ==> Shift(c, dx, dy) in keys
    ensures GridHits(c, keys, r, lo, hi) == (hi - lo) * (2 * r + 1) - (if lo <= 0 < hi then 1 else 0)
    decreases hi - lo
  {
    if hi > lo {
      FullGrid(c, keys, r, lo, hi - 1);
      FullRow(c, keys, hi - 1, -r, r + 1);
      assert (hi - lo) * (2 * r + 1) == (hi - 1 - lo) * (2 * r + 1) + (2 * r + 1);
    }
  }

  /** A cell whose whole neighbourhood is occupied has coverage 1 and is never a boundary cell. */
  lemma InteriorCellIsNotBoundary(c: CellKey, keys: set<CellKey>, r: int, threshold: real)
    requires r >= 1 && threshold <= 1.0
    requires Surrounded(c, keys, r)
    ensures NeighborHits(c, keys, r) == TotalNeighborSlots(r)
    ensures !IsBoundaryCell(c, keys, r, threshold)
  {
    FullGrid(c, keys, r, -r, r + 1);
    assert (r + 1 - -r) * (2 * r + 1) == (2 * r + 1) * (2 * r + 1);
    var n := TotalNeighborSlots(r);
    assert Coverage(n, n) == 1.0;
  }

  lemma {:induction false} EmptyRow(c: CellKey, keys: set<CellKey>, dx: int, lo: int, hi: int)
    requires forall dy :: lo <= dy < hi && !(dx == 0 && dy == 0) ==> Shift(c, dx, dy) !in keys
    ensures RowHits(c, keys, dx, lo, hi) == 0
    decreases hi - lo
  {
    if hi > lo {
      EmptyRow(c, keys, dx, lo, hi - 1);
    }
  }

  lemma {:induction false} EmptyGrid(c: CellKey, keys: set<CellKey>, r: int, lo: int, hi: int)
    requires forall dx, dy :: lo <= dx < hi && -r <= dy <= r && !(dx == 0 && dy == 0) ==> Shift(c, dx, dy) !in keys
    ensures GridHits(c, keys, r, lo, hi) == 0
    decreases hi - lo
  {
    if hi > lo {
      EmptyGrid(c, keys, r, lo, hi - 1);
      EmptyRow(c, keys, hi - 1, -r, r + 1);
    }
  }

  /** The result is a subset of the selection; an empty selection gives an empty result without fallback. */
  lemma ResultWithinSelection(sel: set<int>, positions: Option<seq<real>>, scales: Option<seq<real>>,
                              outlineWidth: real, p: Params)
    ensures BoundaryResult(sel, positions, scales, outlineWidth, p).0 <= sel
    ensures sel == {} ==> (BoundaryResult(sel, positions, scales, outlineWidth, p).0 == {}
                           && !BoundaryResult(sel, positions, scales, outlineWidth, p).1.fallback)
    ensures BoundaryResult(sel, positions, scales, outlineWidth, p).1.selectedCount == |sel|
    ensures BoundaryResult(sel, positions, scales, outlineWidth, p).1.boundaryCount
            == |BoundaryResult(sel, positions, scales, outlineWidth, p).0|
  {
  }

  /**
   * With positions present and a non-empty selection: the fallback is taken
   * exactly when no selected splat lies in a boundary cell, and otherwise a
   * splat is in the result iff it is selected and its cell is a boundary cell.
   */
  lemma BoundaryCharacterisation(sel: set<int>, pos: seq<real>, scales: Option<seq<real>>,
                                 outlineWidth: real, p: Params, i: int)
    requires sel != {}
    ensures var cs := CellSize(scales, sel, outlineWidth, p);
            var keys := Cells(pos, cs, sel);
            var (res, stats) := BoundaryResult(sel, Some(pos), scales, outlineWidth, p);
            && (stats.fallback <==>
                 forall j :: j in sel ==> !IsBoundaryCell(CellOf(pos, cs, j), keys, NeighborRange(p), CoverageThreshold(p)))
            && (stats.fallback ==> res == sel)
            && (!stats.fallback ==>
                 (i in res <==> i in sel && IsBoundaryCell(CellOf(pos, cs, i), keys, NeighborRange(p), CoverageThreshold(p))))
            && stats.gridCellCount == |keys|
            && stats.cellSize >= MaxReal(p.minCellSize, 0.01)
  {
    var cs := CellSize(scales, sel, outlineWidth, p);
    var r := NeighborRange(p);
    var t := CoverageThreshold(p);
    var keys := Cells(pos, cs, sel);
    var b := BoundaryCandidates(sel, pos, cs, r, t);
    if |b| != 0 {
      var j := Pick(b);
      assert j in sel && IsBoundaryCell(CellOf(pos, cs, j), keys, r, t);
    } else {
      forall j | j in sel
        ensures !IsBoundaryCell(CellOf(pos, cs, j), keys, r, t)
      {
        assert j !in b;
      }
    }
  }

  /**
   * A selected splat whose position lies outside the position buffer (an
   * index left over from an earlier, larger aggregation) hashes to the NaN
   * cell, whose every neighbour key is itself; it is never a boundary splat.
   */
  lemma StaleIndexIsNeverBoundary(sel: set<int>, pos: seq<real>, cellSize: real, r: int, threshold: real, i: int)
    requires cellSize > 0.0 && 1 <= r && threshold <= 1.0
    requires i in sel && (i < 0 || 3 * i >= |pos|)
    ensures i !in BoundaryCandidates(sel, pos, cellSize, r, threshold)
  {
    var keys := Cells(pos, cellSize, sel);
    var c := CellOf(pos, cellSize, i);
    assert c == CellKey(NaN, NaN);
    assert c in keys;
    forall dx, dy | -r <= dx <= r && -r <= dy <= r
      ensures Shift(c, dx, dy) in keys
    {
      assert Shift(c, dx, dy) == c;
    }
    InteriorCellIsNotBoundary(c, keys, r, threshold);
  }

  /**
   * A single selected splat with a real position is its own boundary: the
   * result is that splat, and the fallback is taken only when the coverage
   * threshold is 0 (the cell has no neighbours, so its coverage is 0).
   */
  lemma SingleSplatSelection(pos: seq<real>, scales: Option<seq<real>>, outlineWidth: real, p: Params, i: int)
    requires 0 <= i && 3 * i + 1 < |pos|
    ensures var (res, stats) := BoundaryResult({i}, Some(pos), scales, outlineWidth, p);
            res == {i} && stats.boundaryCount == 1 && stats.gridCellCount == 1
            && (stats.fallback <==> CoverageThreshold(p) == 0.0)
  {
    var cs := CellSize(scales, {i}, outlineWidth, p);
    var r := NeighborRange(p);
    var t := CoverageThreshold(p);
    var c := CellOf(pos, cs, i);
    var keys := Cells(pos, cs, {i});
    assert keys == {c};
    assert c.x.Num? && c.y.Num?;
    forall dx, dy | -r <= dx <= r && -r <= dy <= r && !(dx == 0 && dy == 0)
      ensures Shift(c, dx, dy) !in keys
    {
    }
    EmptyGrid(c, keys, r, -r, r + 1);
    assert Coverage(NeighborHits(c, keys, r), TotalNeighborSlots(r)) == 0.0;
    assert IsBoundaryCell(c, keys, r, t) <==> t > 0.0;
    BoundaryCharacterisation({i}, pos, scales, outlineWidth, p, i);
    ResultWithinSelection({i}, Some(pos), scales, outlineWidth, p);
    var res := BoundaryResult({i}, Some(pos), scales, outlineWidth, p).0;
    assert i in res;
    assert res == {i};
  }
}
