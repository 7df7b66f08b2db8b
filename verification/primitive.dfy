/**
 * `GaussianSplatPrimitive`: the CPU-side state of a Gaussian-splat tileset
 * renderer. It keeps the per-splat edit state (selection, locks, colour
 * groups), the one-byte-per-splat state buffer derived from it, the lazily
 * recomputed selection boundary, the splat attributes aggregated from the
 * selected tiles, and the per-frame scheduler that hands the splats to an
 * asynchronous radix sort.
 */
module SplatPrimitive {
  import opened Wrappers
  import opened Numbers
  import opened SplatStateCodec
  import opened ColorPalette
  import Boundary
  import opened Aggregation
  import ColorModifications
  import Picking
  import opened OutlineParameters
  import StateTexture

  /** `GaussianSplatSortingState`. */
  datatype SortState = Idle | Waiting | Sorting | Sorted | Error

  /**
   * What one call of `update` sees of the frame: the tileset's visibility and
   * selected tiles, the render pass, the camera, and whether the radix-sort
   * service and the texture generator accept a request this frame (each may
   * return no promise).
   */
  datatype FrameInput = FrameInput(
    show: bool,
    selectedTiles: seq<Tile>,
    pickPass: bool,
    modelMatrixChanged: bool,
    viewMatrix: seq<real>,
    sortAccepted: bool,
    textureAccepted: bool)

  /** What `update` throws: an aggregation `set` that fails, or the stored sort error. */
  datatype UpdateError = AggregationFailed(error: AggregationError) | SortFailed(reason: string)

  /** The attributes `generateSplatTexture` hands to the texture generator. */
  datatype TextureRequest = TextureRequest(
    positions: seq<real>,
    scales: seq<real>,
    rotations: seq<real>,
    colors: seq<bv8>,
    plyIndices: Option<seq<int>>,
    count: nat)

  /** `selected !== false`: an omitted flag means true. */
  function FlagOrTrue(flag: Option<bool>): bool
  {
    flag != Some(false)
  }

  /** The entries of `indices` that are valid aggregate indices, `0 <= index < n`. */
  function InRange(indices: seq<int>, n: int): (s: set<int>)
    ensures forall i :: i in s <==> i in indices && 0 <= i < n
  {
    set i | i in indices && 0 <= i < n
  }

  lemma InRangeSnoc(indices: seq<int>, x: int, n: int)
    ensures InRange(indices + [x], n) == InRange(indices, n) + (if 0 <= x < n then {x} else {})
  {
  }

  /** The colour group a splat shows: its entry in `_splatColorGroups`, or 0 without one. */
  function GroupOrZero(groups: map<int, int>, i: int): int
  {
    if i in groups then groups[i] else 0
  }

  /**
   * `_splatColorGroups` after assigning the (clamped) group g to the splats s:
   * group 0 removes their entries, any other group stores g for each.
   */
  function AssignGroup(groups: map<int, int>, s: set<int>, g: int): (r: map<int, int>)
    ensures forall i :: i in s ==> GroupOrZero(r, i) == g
    ensures g == 0 ==> forall i :: i in s ==> i !in r
    ensures forall i :: i !in s ==> (i in r <==> i in groups) && GroupOrZero(r, i) == GroupOrZero(groups, i)
  {
    if g == 0 then groups - s else groups + map i | i in s :: g
  }

  /** Assigning one more splat extends the assignment: removal for group 0, an entry otherwise. */
  lemma AssignGroupAdd(groups: map<int, int>, s: set<int>, x: int, g: int)
    ensures (if g == 0 then AssignGroup(groups, s, g) - {x} else AssignGroup(groups, s, g)[x := g])
            == AssignGroup(groups, s + {x}, g)
  {
  }

  /**
   * The aggregate indices the PLY-index setters forward, in input order: the
   * mapped index of every PLY index the map knows whose aggregate index is
   * in [0, n).
   */
  function MappedIndices(plyIndices: seq<int>, plyToAgg: map<int, int>, n: int): (r: seq<int>)
    ensures forall i :: i in r ==> 0 <= i < n
    ensures forall p :: p in plyIndices && p in plyToAgg && 0 <= plyToAgg[p] < n ==> plyToAgg[p] in r
    ensures forall i :: i in r ==> exists p :: p in plyIndices && p in plyToAgg && plyToAgg[p] == i
  {
    if |plyIndices| == 0 then []
    else
      var init := plyIndices[..|plyIndices| - 1];
      var p := plyIndices[|plyIndices| - 1];
      assert forall q :: q in plyIndices ==> q in init || q == p;
      assert forall q :: q in init ==> q in plyIndices;
      MappedIndices(init, plyToAgg, n) + (if p in plyToAgg && 0 <= plyToAgg[p] < n then [plyToAgg[p]] else [])
  }

  class GaussianSplatPrimitive {
    // Per-splat edit state
    var numSplats: nat
    var selectedSplatIndices: set<int>
    var lockedSplatIndices: set<int>
    var splatColorGroups: map<int, int>
    var colorGroups: seq<Color>
    var selectedColor: Color
    var lockedColor: Color
    var needsStateTextureUpdate: bool
    var dirty: bool
    var splatStates: array?<bv8>
    var hasSplatStateTexture: bool

    // Selection boundary
    var boundaryDirty: bool
    var boundaryIndices: Option<set<int>>
    var boundaryInstanceCount: nat
    var hasBoundaryVertexArray: bool
    var hasOutlineRingCommand: bool
    var outlineBoundaryStats: Option<Boundary.Stats>
    var boundaryParams: Boundary.Params

    // Outline parameters
    var outlineWidth: real
    var outlineAlphaCutoff: real
    var outlineMode: OutlineMode
    var outlineKernelRadius: int
    var outlineParamsChanged: bool

    // Fields the outline post-process writes
    var stateTexture: StateTexture.Texture?
    var stateTextureWidth: Option<nat>
    var stateTextureHeight: Option<nat>

    // Aggregated splats
    var selectedTileLength: nat
    var plyIndexToAggregateIndex: map<int, int>
    var plyIndicesAggregate: Option<seq<int>>
    var positions: Option<seq<real>>
    var scales: Option<seq<real>>
    var rotations: Option<seq<real>>
    var colors: Option<seq<bv8>>
    var shData: Option<seq<int>>
    var sphericalHarmonicsDegree: nat
    var colorModifications: seq<ColorModifications.Entry>

    // Splat texture
    var needsGaussianSplatTexture: bool
    var gaussianSplatTexturePending: bool
    var hasGaussianSplatTexture: bool
    var lastTextureWidth: nat
    var lastTextureHeight: nat
    var indexes: array?<int>
    ghost var texturesInFlight: nat

    // Sort scheduler
    var sorterState: SortState
    var hasSorterPromise: bool
    ghost var sorterPromiseSettled: bool
    ghost var sortsInFlight: nat
    var sorterError: Option<string>
    var prevViewMatrix: seq<real>

    /** The four outline settings as one value. */
    function Settings(): OutlineSettings
      reads this
    {
      OutlineSettings(outlineWidth, outlineAlphaCutoff, outlineMode, outlineKernelRadius)
    }

    /** The state `_markBoundaryDirty` leaves: recompute pending, no cached boundary, GPU resources and stats dropped. */
    predicate BoundaryCleared()
      reads this
    {
      boundaryDirty && boundaryIndices.None? && boundaryInstanceCount == 0
      && !hasBoundaryVertexArray && !hasOutlineRingCommand && outlineBoundaryStats.None?
    }

    /**
     * The sort scheduler's invariant: a promise is held exactly while a
     * request is in flight or its outcome (SORTED, ERROR) awaits the next
     * frame; WAITING holds none; at most one request is ever in flight.
     */
    ghost predicate SortValid()
      reads this`sorterState, this`hasSorterPromise, this`sorterPromiseSettled, this`sorterError, this`sortsInFlight
    {
      && (sorterState == Waiting ==> !hasSorterPromise)
      && (sorterState == Sorting ==> hasSorterPromise && !sorterPromiseSettled)
      && (sorterState == Idle && hasSorterPromise ==> !sorterPromiseSettled)
      && (sorterState == Sorted || sorterState == Error ==> hasSorterPromise && sorterPromiseSettled)
      && (sorterState == Error ==> sorterError.Some?)
      && sortsInFlight == (if hasSorterPromise && !sorterPromiseSettled then 1 else 0)
    }

    /** The constructor's defaults. */
    constructor ()
      ensures numSplats == 0 && selectedSplatIndices == {} && lockedSplatIndices == {} && splatColorGroups == map[]
      ensures colorGroups == [] && selectedColor == Magenta && lockedColor == LockGrey
      ensures !needsStateTextureUpdate && !dirty && splatStates == null && !hasSplatStateTexture
      ensures boundaryDirty && boundaryIndices.None? && boundaryInstanceCount == 0
      ensures !hasBoundaryVertexArray && !hasOutlineRingCommand && outlineBoundaryStats.None?
      ensures boundaryParams == Boundary.DefaultParams
      ensures Settings() == DefaultSettings && !outlineParamsChanged
      ensures stateTexture == null && stateTextureWidth.None? && stateTextureHeight.None?
      ensures selectedTileLength == 0 && plyIndexToAggregateIndex == map[] && plyIndicesAggregate.None?
      ensures positions.None? && scales.None? && rotations.None? && colors.None? && shData.None?
      ensures colorModifications == []
      ensures needsGaussianSplatTexture && !gaussianSplatTexturePending && !hasGaussianSplatTexture
      ensures lastTextureWidth == 0 && lastTextureHeight == 0 && indexes == null
      ensures sorterState == Idle && !hasSorterPromise && sorterError.None?
      ensures prevViewMatrix == seq(16, _ => 0.0)
      ensures SortValid() && ValidSettings(Settings())
    {
      numSplats := 0;
      selectedSplatIndices := {};
      lockedSplatIndices := {};
      splatColorGroups := map[];
      colorGroups := [];
      selectedColor := Magenta;
      lockedColor := LockGrey;
      needsStateTextureUpdate := false;
      dirty := false;
      splatStates := null;
      hasSplatStateTexture := false;
      boundaryDirty := true;
      boundaryIndices := None;
      boundaryInstanceCount := 0;
      hasBoundaryVertexArray := false;
      hasOutlineRingCommand := false;
      outlineBoundaryStats := None;
      boundaryParams := Boundary.DefaultParams;
      outlineWidth := DefaultSettings.width;
      outlineAlphaCutoff := DefaultSettings.alphaCutoff;
      outlineMode := DefaultSettings.mode;
      outlineKernelRadius := DefaultSettings.kernelRadius;
      outlineParamsChanged := false;
      stateTexture := null;
      stateTextureWidth := None;
      stateTextureHeight := None;
      selectedTileLength := 0;
      plyIndexToAggregateIndex := map[];
      plyIndicesAggregate := None;
      positions := None;
      scales := None;
      rotations := None;
      colors := None;
      shData := None;
      sphericalHarmonicsDegree := 0;
      colorModifications := [];
      needsGaussianSplatTexture := true;
      gaussianSplatTexturePending := false;
      hasGaussianSplatTexture := false;
      lastTextureWidth := 0;
      lastTextureHeight := 0;
      indexes := null;
      texturesInFlight := 0;
      sorterState := Idle;
      hasSorterPromise := false;
      sorterPromiseSettled := false;
      sortsInFlight := 0;
      sorterError := None;
      prevViewMatrix := seq(16, _ => 0.0);
    }

    // -------------------------------------------------------------------------
    // Selection, locks and colour groups

    /** `_markBoundaryDirty`. */
    method MarkBoundaryDirty()
      modifies this`boundaryDirty, this`boundaryIndices, this`boundaryInstanceCount,
               this`hasBoundaryVertexArray, this`hasOutlineRingCommand, this`outlineBoundaryStats
      ensures BoundaryCleared()
    {
      boundaryDirty := true;
      boundaryIndices := None;
      boundaryInstanceCount := 0;
      hasBoundaryVertexArray := false;
      hasOutlineRingCommand := false;
      outlineBoundaryStats := None;
    }

    /**
     * `setSplatSelection(indices, selected)`: the valid indices are added
     * (selected, the default) or removed; invalid ones are skipped. The state
     * buffer, the frame and the boundary are marked stale even when no index
     * was valid.
     */
    method SetSplatSelection(indices: seq<int>, selected: Option<bool>)
      modifies this`selectedSplatIndices, this`needsStateTextureUpdate, this`dirty,
               this`boundaryDirty, this`boundaryIndices, this`boundaryInstanceCount,
               this`hasBoundaryVertexArray, this`hasOutlineRingCommand, this`outlineBoundaryStats
      ensures selectedSplatIndices == if FlagOrTrue(selected)
                                      then old(selectedSplatIndices) + InRange(indices, numSplats)
                                      else old(selectedSplatIndices) - InRange(indices, numSplats)
      ensures needsStateTextureUpdate && dirty && BoundaryCleared()
    {
      var add := FlagOrTrue(selected);
      var i := 0;
      while i < |indices|
        invariant 0 <= i <= |indices|
        invariant selectedSplatIndices == if add
                                          then old(selectedSplatIndices) + InRange(indices[..i], numSplats)
                                          else old(selectedSplatIndices) - InRange(indices[..i], numSplats)
      {
        var index := indices[i];
        if 0 <= index < numSplats {
          if add {
            selectedSplatIndices := selectedSplatIndices + {index};
          } else {
            selectedSplatIndices := selectedSplatIndices - {index};
          }
        }
        assert indices[..i + 1] == indices[..i] + [index];
        InRangeSnoc(indices[..i], index, numSplats);
        i := i + 1;
      }
      assert indices[..i] == indices;
      needsStateTextureUpdate := true;
      dirty := true;
      MarkBoundaryDirty();
    }

    /** `setSplatLock(indices, locked)`: as the selection setter, on the lock set, and the boundary is left alone. */
    method SetSplatLock(indices: seq<int>, locked: Option<bool>)
      modifies this`lockedSplatIndices, this`needsStateTextureUpdate, this`dirty
      ensures lockedSplatIndices == if FlagOrTrue(locked)
                                    then old(lockedSplatIndices) + InRange(indices, numSplats)
                                    else old(lockedSplatIndices) - InRange(indices, numSplats)
      ensures needsStateTextureUpdate && dirty
    {
      var add := FlagOrTrue(locked);
      var i := 0;
      while i < |indices|
        invariant 0 <= i <= |indices|
        invariant lockedSplatIndices == if add
                                        then old(lockedSplatIndices) + InRange(indices[..i], numSplats)
                                        else old(lockedSplatIndices) - InRange(indices[..i], numSplats)
      {
        var index := indices[i];
        if 0 <= index < numSplats {
          if add {
            lockedSplatIndices := lockedSplatIndices + {index};
          } else {
            lockedSplatIndices := lockedSplatIndices - {index};
          }
        }
        assert indices[..i + 1] == indices[..i] + [index];
        InRangeSnoc(indices[..i], index, numSplats);
        i := i + 1;
      }
      assert indices[..i] == indices;
      needsStateTextureUpdate := true;
      dirty := true;
    }

    /** `clearSelection`. */
    method ClearSelection()
      modifies this`selectedSplatIndices, this`needsStateTextureUpdate, this`dirty,
               this`boundaryDirty, this`boundaryIndices, this`boundaryInstanceCount,
               this`hasBoundaryVertexArray, this`hasOutlineRingCommand, this`outlineBoundaryStats
      ensures selectedSplatIndices == {} && needsStateTextureUpdate && dirty && BoundaryCleared()
    {
      selectedSplatIndices := {};
      needsStateTextureUpdate := true;
      dirty := true;
      MarkBoundaryDirty();
    }

    /** `clearLocks`: the boundary is left alone. */
    method ClearLocks()
      modifies this`lockedSplatIndices, this`needsStateTextureUpdate, this`dirty
      ensures lockedSplatIndices == {} && needsStateTextureUpdate && dirty
    {
      lockedSplatIndices := {};
      needsStateTextureUpdate := true;
      dirty := true;
    }

    /**
     * `setSplatColorGroup(indices, groupId)`: the group (default 0) is clamped
     * to [0, 63] and assigned to every valid index; invalid indices are skipped.
     */
    method SetSplatColorGroup(indices: seq<int>, groupId: Option<int>)
      modifies this`splatColorGroups, this`needsStateTextureUpdate, this`dirty
      ensures splatColorGroups == AssignGroup(old(splatColorGroups), InRange(indices, numSplats),
                                              ClampGroup(if groupId.Some? then groupId.value else 0))
      ensures needsStateTextureUpdate && dirty
    {
      var g := ClampGroup(if groupId.Some? then groupId.value else 0);
      var i := 0;
      while i < |indices|
        invariant 0 <= i <= |indices|
        invariant splatColorGroups == AssignGroup(old(splatColorGroups), InRange(indices[..i], numSplats), g)
      {
        var index := indices[i];
        ghost var before := InRange(indices[..i], numSplats);
        if 0 <= index < numSplats {
          AssignGroupAdd(old(splatColorGroups), before, index, g);
          if g == 0 {
            splatColorGroups := splatColorGroups - {index};
          } else {
            splatColorGroups := splatColorGroups[index := g];
          }
        }
        assert indices[..i + 1] == indices[..i] + [index];
        InRangeSnoc(indices[..i], index, numSplats);
        assert splatColorGroups == AssignGroup(old(splatColorGroups), InRange(indices[..i + 1], numSplats), g);
        i := i + 1;
      }
      assert indices[..i] == indices;
      needsStateTextureUpdate := true;
      dirty := true;
    }

    /** `clearColorGroups`. */
    method ClearColorGroups()
      modifies this`splatColorGroups, this`needsStateTextureUpdate, this`dirty
      ensures splatColorGroups == map[] && needsStateTextureUpdate && dirty
    {
      splatColorGroups := map[];
      needsStateTextureUpdate := true;
      dirty := true;
    }

    /**
     * `setColorGroupColor(g, color)`: for 1 <= g <= 63 the palette is padded
     * with magenta up to slot g and slot g set; any other g changes nothing.
     */
    method SetColorGroupColor(g: int, color: Color)
      modifies this`colorGroups, this`dirty
      ensures 1 <= g < MaxColorGroups ==> colorGroups == WithGroupColor(old(colorGroups), g, color) && dirty
      ensures !(1 <= g < MaxColorGroups) ==> colorGroups == old(colorGroups) && dirty == old(dirty)
    {
      if g < 1 || g >= MaxColorGroups {
        return;
      }
      while |colorGroups| <= g
        invariant |old(colorGroups)| <= |colorGroups| <= if |old(colorGroups)| <= g then g + 1 else |old(colorGroups)|
        invariant colorGroups == old(colorGroups) + seq(|colorGroups| - |old(colorGroups)|, _ => Magenta)
        decreases g + 1 - |colorGroups|
      {
        colorGroups := colorGroups + [Magenta];
      }
      colorGroups := colorGroups[g := color];
      dirty := true;
    }

    /** `getColorGroupColor(g)`. */
    function GetColorGroupColor(g: int): (c: Option<Color>)
      reads this
      ensures c.None? <==> g < 0 || g >= SplatStateCodec.MaxColorGroups || (g != 0 && g >= |colorGroups|)
      ensures g == 0 ==> c == Some(selectedColor)
      ensures 0 < g < SplatStateCodec.MaxColorGroups && g < |colorGroups| ==> c == Some(colorGroups[g])
    {
      GroupColor(colorGroups, selectedColor, g)
    }

    /** The PLY-index variants' translation loop. */
    method AggregateIndicesOf(plyIndices: seq<int>) returns (aggregate: seq<int>)
      ensures aggregate == MappedIndices(plyIndices, plyIndexToAggregateIndex, numSplats)
    {
      aggregate := [];
      var i := 0;
      while i < |plyIndices|
        invariant 0 <= i <= |plyIndices|
        invariant aggregate == MappedIndices(plyIndices[..i], plyIndexToAggregateIndex, numSplats)
      {
        var p := plyIndices[i];
        assert plyIndices[..i + 1][..i] == plyIndices[..i];
        if p in plyIndexToAggregateIndex && 0 <= plyIndexToAggregateIndex[p] < numSplats {
          aggregate := aggregate + [plyIndexToAggregateIndex[p]];
        }
        i := i + 1;
      }
      assert plyIndices[..i] == plyIndices;
    }

    /**
     * `setSplatSelectionByPlyIndex`: PLY indices are translated through the
     * PLY -> aggregate map; when none maps into [0, numSplats) nothing at all
     * changes, not even the dirty flags.
     */
    method SetSplatSelectionByPlyIndex(plyIndices: seq<int>, selected: Option<bool>)
      modifies this`selectedSplatIndices, this`needsStateTextureUpdate, this`dirty,
               this`boundaryDirty, this`boundaryIndices, this`boundaryInstanceCount,
               this`hasBoundaryVertexArray, this`hasOutlineRingCommand, this`outlineBoundaryStats
      ensures var targets := InRange(MappedIndices(plyIndices, plyIndexToAggregateIndex, numSplats), numSplats);
              if targets == {} then unchanged(this)
              else
                && selectedSplatIndices == (if FlagOrTrue(selected) then old(selectedSplatIndices) + targets
                                            else old(selectedSplatIndices) - targets)
                && needsStateTextureUpdate && dirty && BoundaryCleared()
    {
      var aggregate := AggregateIndicesOf(plyIndices);
      if |aggregate| > 0 {
        assert aggregate[0] in aggregate;
        assert aggregate[0] in InRange(aggregate, numSplats);
        SetSplatSelection(aggregate, selected);
      } else {
        assert InRange(aggregate, numSplats) == {};
      }
    }

    /** `setSplatLockByPlyIndex`: as above, for the lock set. */
    method SetSplatLockByPlyIndex(plyIndices: seq<int>, locked: Option<bool>)
      modifies this`lockedSplatIndices, this`needsStateTextureUpdate, this`dirty
      ensures var targets := InRange(MappedIndices(plyIndices, plyIndexToAggregateIndex, numSplats), numSplats);
              if targets == {} then unchanged(this)
              else
                && lockedSplatIndices == (if FlagOrTrue(locked) then old(lockedSplatIndices) + targets
                                          else old(lockedSplatIndices) - targets)
                && needsStateTextureUpdate && dirty
    {
      var aggregate := AggregateIndicesOf(plyIndices);
      if |aggregate| > 0 {
        assert aggregate[0] in aggregate;
        assert aggregate[0] in InRange(aggregate, numSplats);
        SetSplatLock(aggregate, locked);
      } else {
        assert InRange(aggregate, numSplats) == {};
      }
    }

    // -------------------------------------------------------------------------
    // Outline and boundary parameters

    /** `setOutlineWidth(width)`. */
    method SetOutlineWidth(width: Option<real>)
      modifies this`outlineWidth, this`outlineParamsChanged, this`dirty
      ensures var next := WidthSetting(old(Settings()), width);
              if next.None? then unchanged(this) else Settings() == next.value && outlineParamsChanged && dirty
    {
      if width.None? {
        return;
      }
      outlineWidth := MaxReal(0.1, width.value);
      outlineParamsChanged := true;
      dirty := true;
    }

    /** `setOutlineAlphaCutoff(cutoff, mode)`. */
    method SetOutlineAlphaCutoff(cutoff: Option<real>, mode: Option<string>)
      modifies this`outlineAlphaCutoff, this`outlineMode, this`outlineParamsChanged, this`dirty
      ensures var next := AlphaCutoffSetting(old(Settings()), cutoff, mode);
              if next.None? then unchanged(this) else Settings() == next.value && outlineParamsChanged && dirty
    {
      if mode.Some? {
        if mode.value == "rings" {
          outlineAlphaCutoff := 0.0;
          outlineMode := Rings;
        } else if mode.value == "centers" {
          outlineAlphaCutoff := if cutoff.Some? then ClampReal(cutoff.value, 0.0, 1.0) else CentersCutoff;
          outlineMode := Centers;
        } else {
          outlineAlphaCutoff := if cutoff.Some? then ClampReal(cutoff.value, 0.0, 1.0) else CentersCutoff;
          outlineMode := Centers;
        }
      } else if cutoff.Some? {
        outlineAlphaCutoff := ClampReal(cutoff.value, 0.0, 1.0);
      } else {
        return;
      }
      outlineParamsChanged := true;
      dirty := true;
    }

    /** `setOutlineMode(mode)`. */
    method SetOutlineMode(mode: Option<string>)
      modifies this`outlineAlphaCutoff, this`outlineMode, this`outlineParamsChanged, this`dirty
      ensures var next := ModeSetting(old(Settings()), mode);
              if next.None? then unchanged(this) else Settings() == next.value && outlineParamsChanged && dirty
    {
      if mode.None? {
        return;
      }
      var oldMode := outlineMode;
      if mode.value == "rings" {
        outlineAlphaCutoff := 0.0;
        outlineMode := Rings;
      } else if mode.value == "centers" {
        if oldMode == Rings {
          outlineAlphaCutoff := CentersCutoff;
        }
        outlineMode := Centers;
      } else {
        return;
      }
      outlineParamsChanged := true;
      dirty := true;
    }

    /** `setOutlineKernelRadius(radius)`. */
    method SetOutlineKernelRadius(radius: Option<real>)
      modifies this`outlineKernelRadius, this`outlineParamsChanged, this`dirty
      ensures var next := KernelRadiusSetting(old(Settings()), radius);
              if next.None? then unchanged(this) else Settings() == next.value && outlineParamsChanged && dirty
    {
      if radius.None? {
        return;
      }
      var clamped := ClampInt(Round(radius.value), 1, 4);
      if outlineKernelRadius == clamped {
        return;
      }
      outlineKernelRadius := clamped;
      outlineParamsChanged := true;
      dirty := true;
    }

    /** `setOutlineBoundaryParameters(options)`: a change marks the boundary dirty. */
    method SetOutlineBoundaryParameters(options: Option<BoundaryOptions>)
      modifies this`boundaryParams, this`boundaryDirty, this`boundaryIndices, this`boundaryInstanceCount,
               this`hasBoundaryVertexArray, this`hasOutlineRingCommand, this`outlineBoundaryStats
      ensures var next := BoundaryParamsSetting(old(boundaryParams), options);
              if next.None? then unchanged(this) else boundaryParams == next.value && BoundaryCleared()
    {
      if options.None? {
        return;
      }
      var o := options.value;
      var current := boundaryParams;
      var cellMultiplier := ClampReal(OrElse(o.cellMultiplier, current.cellMultiplier), 0.1, 20.0);
      var minCellSize := ClampReal(OrElse(o.minCellSize, current.minCellSize), 0.01, 10.0);
      var neighborRange := ClampInt(if o.neighborRange.Some? then Round(o.neighborRange.value) else current.neighborRange, 1, 4);
      var minCoverage := ClampReal(OrElse(o.minCoverage, current.minCoverage), 0.0, 1.0);
      if cellMultiplier == current.cellMultiplier && minCellSize == current.minCellSize
         && neighborRange == current.neighborRange && minCoverage == current.minCoverage {
        return;
      }
      boundaryParams := Boundary.Params(cellMultiplier, minCellSize, neighborRange, minCoverage);
      MarkBoundaryDirty();
    }

    /**
     * The dirty check of `_ensureBoundaryResources`: nothing happens while the
     * boundary is clean and its vertex array exists; otherwise the boundary
     * and its statistics are recomputed from the current selection, and a
     * vertex array exists exactly when the boundary is non-empty.
     */
    method EnsureBoundaryResources()
      modifies this`boundaryDirty, this`boundaryIndices, this`boundaryInstanceCount,
               this`hasBoundaryVertexArray, this`outlineBoundaryStats
      ensures old(!boundaryDirty && hasBoundaryVertexArray) ==> unchanged(this)
      ensures !old(!boundaryDirty && hasBoundaryVertexArray) ==>
                var (b, stats) := Boundary.BoundaryResult(selectedSplatIndices, positions, scales, outlineWidth, boundaryParams);
                && !boundaryDirty && boundaryIndices == Some(b) && outlineBoundaryStats == Some(stats)
                && boundaryInstanceCount == |b| && (hasBoundaryVertexArray <==> |b| > 0)
    {
      if !boundaryDirty && hasBoundaryVertexArray {
        return;
      }
      boundaryDirty := false;
      var b, stats := Boundary.ComputeBoundaryIndices(selectedSplatIndices, positions, scales, outlineWidth, boundaryParams);
      boundaryIndices := Some(b);
      outlineBoundaryStats := Some(stats);
      boundaryInstanceCount := |b|;
      hasBoundaryVertexArray := |b| > 0;
    }

    // -------------------------------------------------------------------------
    // State buffer

    /** The state byte of splat i: its clamped colour group, selection bit and lock bit. */
    function StateByte(i: int): bv8
      reads this`splatColorGroups, this`selectedSplatIndices, this`lockedSplatIndices
    {
      EncodeState(GroupOrZero(splatColorGroups, i), i in selectedSplatIndices, i in lockedSplatIndices)
    }

    /**
     * `updateSplatStateTexture`: with splats present, the state buffer (grown
     * to the texture size when too small, and then zero-filled) holds every
     * splat's state byte, zeros up to the texture size, and whatever it held
     * beyond that; the state texture exists and is up to date.
     */
    method UpdateSplatStateTexture()
      modifies this`splatStates, this`hasSplatStateTexture, this`needsStateTextureUpdate, splatStates
      ensures numSplats == 0 ==> unchanged(this) && (splatStates != null ==> unchanged(splatStates))
      ensures numSplats > 0 ==>
                var size := StateTextureSize(numSplats, lastTextureWidth);
                && splatStates != null && splatStates.Length >= size
                && (forall i :: 0 <= i < numSplats ==> splatStates[i] == StateByte(i))
                && (forall i :: numSplats <= i < size ==> splatStates[i] == 0)
                && (if old(splatStates) != null && old(splatStates.Length) >= size
                    then splatStates == old(splatStates)
                         && forall i :: size <= i < splatStates.Length ==> splatStates[i] == old(splatStates[i])
                    else fresh(splatStates) && splatStates.Length == size)
                && hasSplatStateTexture && !needsStateTextureUpdate
    {
      if numSplats == 0 {
        return;
      }
      if splatStates == null || splatStates.Length < numSplats {
        splatStates := new bv8[numSplats](_ => 0);
      }
      var size := StateTextureSize(numSplats, lastTextureWidth);
      if splatStates.Length < size {
        splatStates := new bv8[size](_ => 0);
      }
      FillStates(splatStates, size);
      hasSplatStateTexture := true;
      needsStateTextureUpdate := false;
    }

    /** The two loops of `updateSplatStateTexture` over a buffer of at least `size` bytes. */
    method FillStates(states: array<bv8>, size: nat)
      requires numSplats <= size <= states.Length
      modifies states
      ensures forall i :: 0 <= i < numSplats ==> states[i] == StateByte(i)
      ensures forall i :: numSplats <= i < size ==> states[i] == 0
      ensures forall i :: size <= i < states.Length ==> states[i] == old(states[i])
    {
      var i := 0;
      while i < numSplats
        invariant 0 <= i <= numSplats
        invariant forall j :: 0 <= j < i ==> states[j] == StateByte(j)
        invariant forall j :: numSplats <= j < states.Length ==> states[j] == old(states[j])
      {
        states[i] := EncodeState(GroupOrZero(splatColorGroups, i), i in selectedSplatIndices, i in lockedSplatIndices);
        i := i + 1;
      }
      while i < size
        invariant numSplats <= i <= size
        invariant forall j :: 0 <= j < numSplats ==> states[j] == StateByte(j)
        invariant forall j :: numSplats <= j < i ==> states[j] == 0
        invariant forall j :: size <= j < states.Length ==> states[j] == old(states[j])
      {
        states[i] := 0;
        i := i + 1;
      }
    }

    // -------------------------------------------------------------------------
    // Picking

    /**
     * The final choice of `getSplatInfoAtScreenPosition` over given candidate
     * distances: nothing without positions or candidates; otherwise the
     * nearest candidate within `maxDistance` pixels (default 40), or failing
     * that the nearest within `worldMaxDistance` (default 0.05) in world space,
     * reported with its edit state and PLY index.
     */
    method GetSplatInfo(cands: seq<Picking.Candidate>, maxDistance: Option<real>, worldMaxDistance: Option<real>)
      returns (info: Option<Picking.SplatInfo>)
      ensures positions.None? || |positions.value| == 0 || |cands| == 0 ==> info.None?
      ensures info.Some? ==>
                info.value == Picking.InfoOf(info.value.aggregateIndex, info.value.pixelDistance, plyIndicesAggregate,
                                             splatColorGroups, selectedSplatIndices, lockedSplatIndices)
      ensures info.Some? ==>
                var e := Effective(cands, |positions.value|);
                exists k :: 0 <= k < |e| && e[k].index == info.value.aggregateIndex
                  && ((Picking.IsNearest(e, |e|, k, Picking.Pixel, OrElse(maxDistance, 40.0))
                       && info.value.pixelDistance == Picking.DistanceOf(e[k], Picking.Pixel).value)
                      || (Picking.IsNearest(e, |e|, k, Picking.World, OrElse(worldMaxDistance, 0.05))
                          && info.value.pixelDistance == Picking.DistanceOf(e[k], Picking.World).value))
      ensures positions.Some? && |positions.value| > 0 && (forall k :: 0 <= k < |cands| ==> cands[k].index >= 0) ==>
                var e := Effective(cands, |positions.value|);
                (info.None? <==> forall k :: 0 <= k < |e| ==>
                   !Picking.Within(e, k, Picking.Pixel, OrElse(maxDistance, 40.0))
                   && !Picking.Within(e, k, Picking.World, OrElse(worldMaxDistance, 0.05)))
      ensures positions.Some? && |positions.value| > 0 && (forall k :: 0 <= k < |cands| ==> cands[k].index >= 0) ==>
                var e := Effective(cands, |positions.value|);
                (exists k :: 0 <= k < |e| && Picking.Within(e, k, Picking.Pixel, OrElse(maxDistance, 40.0))) ==>
                  info.Some? && (exists k :: 0 <= k < |e| && e[k].index == info.value.aggregateIndex
                                   && Picking.IsNearest(e, |e|, k, Picking.Pixel, OrElse(maxDistance, 40.0)))
    {
      if positions.None? || |positions.value| == 0 {
        return None;
      }
      var md := OrElse(maxDistance, 40.0);
      var wmd := OrElse(worldMaxDistance, 0.05);
      if |cands| == 0 {
        return None;
      }
      var e := Effective(cands, |positions.value|);
      var r := Picking.ScanCandidates(e, md, wmd);
      var choice := Picking.FinalChoice(e, r);
      if choice.None? {
        return None;
      }
      info := Some(Picking.InfoOf(choice.value.0, choice.value.1, plyIndicesAggregate,
                                  splatColorGroups, selectedSplatIndices, lockedSplatIndices));
    }
  
    // -------------------------------------------------------------------------
    // Aggregation

    /**
     * The re-aggregation block of `update`: the attribute arrays are reset,
     * the PLY-index map and the aggregate PLY-index array are rebuilt, and the
     * attributes are filled in order until one `set` throws. Only a complete
     * aggregation adopts the new splat count, tile count, SH degree and a
     * zeroed state buffer.
     */
    method Aggregate(tiles: seq<Tile>) returns (failure: Option<AggregationError>)
      requires |tiles| > 0
      modifies this`numSplats, this`positions, this`scales, this`rotations, this`colors, this`shData,
               this`indexes, this`needsGaussianSplatTexture, this`gaussianSplatTexturePending,
               this`plyIndexToAggregateIndex, this`plyIndicesAggregate, this`boundaryDirty,
               this`sphericalHarmonicsDegree, this`selectedTileLength, this`splatStates, this`needsStateTextureUpdate
      ensures Attributes(positions, scales, rotations, colors, shData, failure) == AggregateAttributes(tiles)
      ensures boundaryDirty == (old(boundaryDirty) || scales.Some?)
      ensures plyIndexToAggregateIndex == IndexMap(MapKeys(tiles))
      ensures plyIndicesAggregate == Some(AggregatePly(tiles))
      ensures indexes == null && needsGaussianSplatTexture && !gaussianSplatTexturePending
      ensures failure.Some? ==>
                && numSplats == 0 && selectedTileLength == old(selectedTileLength)
                && sphericalHarmonicsDegree == old(sphericalHarmonicsDegree)
                && splatStates == old(splatStates) && needsStateTextureUpdate == old(needsStateTextureUpdate)
      ensures failure.None? ==>
                && numSplats == TotalPoints(tiles) && selectedTileLength == |tiles|
                && sphericalHarmonicsDegree == tiles[0].shDegree
                && splatStates != null && fresh(splatStates) && splatStates.Length == numSplats
                && (forall i :: 0 <= i < numSplats ==> splatStates[i] == 0)
                && needsStateTextureUpdate
    {
      var plyToAgg, ply := BuildPlyIndices(tiles);
      var r := AggregateValues(tiles);
      Adopt(r, plyToAgg, ply, TotalPoints(tiles), |tiles|, tiles[0].shDegree);
      failure := r.failure;
    }

    /**
     * The re-aggregation as `update` reports it: a `set` that throws becomes
     * the error `update` throws, with no splats left; otherwise the new splat
     * and tile counts are adopted.
     */
    method Reaggregate(tiles: seq<Tile>) returns (err: Option<UpdateError>)
      requires |tiles| > 0
      modifies this`numSplats, this`positions, this`scales, this`rotations, this`colors, this`shData,
               this`indexes, this`needsGaussianSplatTexture, this`gaussianSplatTexturePending,
               this`plyIndexToAggregateIndex, this`plyIndicesAggregate, this`boundaryDirty,
               this`sphericalHarmonicsDegree, this`selectedTileLength, this`splatStates, this`needsStateTextureUpdate
      ensures err.Some? ==> err.value.AggregationFailed? && numSplats == 0
      ensures err.None? ==> numSplats == TotalPoints(tiles) && selectedTileLength == |tiles|
      ensures needsGaussianSplatTexture && !gaussianSplatTexturePending && indexes == null
      ensures splatStates == old(splatStates) || fresh(splatStates)
    {
      var failure := Aggregate(tiles);
      err := if failure.Some? then Some(AggregationFailed(failure.value)) else None;
    }

    /** The fields the aggregation block leaves, given its results. */
    method Adopt(r: Attributes, plyToAgg: map<int, int>, ply: seq<int>, total: nat, tileCount: nat, shDegree: nat)
      modifies this`numSplats, this`positions, this`scales, this`rotations, this`colors, this`shData,
               this`indexes, this`needsGaussianSplatTexture, this`gaussianSplatTexturePending,
               this`plyIndexToAggregateIndex, this`plyIndicesAggregate, this`boundaryDirty,
               this`sphericalHarmonicsDegree, this`selectedTileLength, this`splatStates, this`needsStateTextureUpdate
      ensures positions == r.positions && scales == r.scales && rotations == r.rotations
      ensures colors == r.colors && shData == r.shData
      ensures boundaryDirty == (old(boundaryDirty) || r.scales.Some?)
      ensures plyIndexToAggregateIndex == plyToAgg && plyIndicesAggregate == Some(ply)
      ensures indexes == null && needsGaussianSplatTexture && !gaussianSplatTexturePending
      ensures r.failure.Some? ==>
                && numSplats == 0 && selectedTileLength == old(selectedTileLength)
                && sphericalHarmonicsDegree == old(sphericalHarmonicsDegree)
                && splatStates == old(splatStates) && needsStateTextureUpdate == old(needsStateTextureUpdate)
      ensures r.failure.None? ==>
                && numSplats == total && selectedTileLength == tileCount
                && sphericalHarmonicsDegree == shDegree
                && splatStates != null && fresh(splatStates) && splatStates.Length == numSplats
                && (forall i :: 0 <= i < numSplats ==> splatStates[i] == 0)
                && needsStateTextureUpdate
    {
      AdoptPlyIndices(plyToAgg, ply);
      AdoptAttributes(r);
      AdoptSplatCount(r.failure.None?, total, tileCount, shDegree);
    }

    /** The rebuilt PLY-index map and aggregate PLY-index array are stored. */
    method AdoptPlyIndices(plyToAgg: map<int, int>, ply: seq<int>)
      modifies this`plyIndexToAggregateIndex, this`plyIndicesAggregate
      ensures plyIndexToAggregateIndex == plyToAgg && plyIndicesAggregate == Some(ply)
    {
      plyIndexToAggregateIndex := plyToAgg;
      plyIndicesAggregate := Some(ply);
    }

    /** The attribute arrays are stored; new scales mark the boundary dirty. */
    method AdoptAttributes(r: Attributes)
      modifies this`positions, this`scales, this`rotations, this`colors, this`shData, this`boundaryDirty
      ensures positions == r.positions && scales == r.scales && rotations == r.rotations
      ensures colors == r.colors && shData == r.shData
      ensures boundaryDirty == (old(boundaryDirty) || r.scales.Some?)
    {
      positions := r.positions;
      scales := r.scales;
      if r.scales.Some? {
        boundaryDirty := true;
      }
      rotations := r.rotations;
      colors := r.colors;
      shData := r.shData;
    }

    /**
     * The splat count is reset and the splat texture is due; only a complete
     * aggregation adopts the new splat count, tile count, SH degree and a
     * zeroed state buffer.
     */
    method AdoptSplatCount(complete: bool, total: nat, tileCount: nat, shDegree: nat)
      modifies this`numSplats, this`indexes, this`needsGaussianSplatTexture, this`gaussianSplatTexturePending,
               this`sphericalHarmonicsDegree, this`selectedTileLength, this`splatStates, this`needsStateTextureUpdate
      ensures indexes == null && needsGaussianSplatTexture && !gaussianSplatTexturePending
      ensures !complete ==>
                && numSplats == 0 && selectedTileLength == old(selectedTileLength)
                && sphericalHarmonicsDegree == old(sphericalHarmonicsDegree)
                && splatStates == old(splatStates) && needsStateTextureUpdate == old(needsStateTextureUpdate)
      ensures complete ==>
                && numSplats == total && selectedTileLength == tileCount
                && sphericalHarmonicsDegree == shDegree
                && splatStates != null && fresh(splatStates) && splatStates.Length == numSplats
                && (forall i :: 0 <= i < numSplats ==> splatStates[i] == 0)
                && needsStateTextureUpdate
    {
      numSplats := 0;
      indexes := null;
      needsGaussianSplatTexture := true;
      gaussianSplatTexturePending := false;
      if complete {
        sphericalHarmonicsDegree := shDegree;
        numSplats := total;
        selectedTileLength := tileCount;
        splatStates := new bv8[numSplats](_ => 0);
        needsStateTextureUpdate := true;
      }
    }


    // -------------------------------------------------------------------------
    // Splat texture

    /**
     * `generateSplatTexture`: the attributes, the colour copy with the colour
     * modifications applied, and a copy of the aggregate PLY indices go to the
     * texture generator; the generation is pending exactly when the generator
     * took the request.
     */
    method GenerateSplatTexture(accepted: bool) returns (request: Option<TextureRequest>)
      modifies this`gaussianSplatTexturePending, this`texturesInFlight
      ensures gaussianSplatTexturePending == accepted
      ensures texturesInFlight == old(texturesInFlight) + (if accepted then 1 else 0)
      ensures request.Some? <==> accepted
      ensures request.Some? ==>
                var q := request.value;
                && q.positions == Contents(positions) && q.scales == Contents(scales)
                && q.rotations == Contents(rotations) && q.plyIndices == plyIndicesAggregate
                && q.count == numSplats && |q.colors| == |Contents(colors)|
                && (|colorModifications| == 0 ==> q.colors == Contents(colors))
                && (|colorModifications| != 0 && plyIndicesAggregate.Some? ==>
                      forall k :: 0 <= k < |q.colors| ==>
                        q.colors[k] == ColorModifications.ModifiedByte(Contents(colors), colorModifications,
                                                                        plyIndicesAggregate.value, numSplats, numSplats, k))
                && (|colorModifications| != 0 && plyIndicesAggregate.None? ==>
                      forall k :: 0 <= k < |q.colors| ==>
                        q.colors[k] == ColorModifications.FallbackByte(Contents(colors), colorModifications,
                                                                        plyIndexToAggregateIndex, numSplats, k))
    {
      gaussianSplatTexturePending := true;
      var modified := ColorModifications.ModifiedColors(Contents(colors), colorModifications, plyIndicesAggregate,
                                                         plyIndexToAggregateIndex, numSplats);
      if !accepted {
        gaussianSplatTexturePending := false;
        return None;
      }
      texturesInFlight := texturesInFlight + 1;
      request := Some(TextureRequest(Contents(positions), Contents(scales), Contents(rotations), modified,
                                     plyIndicesAggregate, numSplats));
    }

    /**
     * The generator's promise resolves with a texture of the given size: the
     * texture is current and the index buffer (grown when too small) holds the
     * identity order on the splats.
     */
    method OnTextureResolved(width: nat, height: nat)
      requires texturesInFlight > 0
      modifies this`lastTextureWidth, this`lastTextureHeight, this`hasGaussianSplatTexture,
               this`needsGaussianSplatTexture, this`gaussianSplatTexturePending, this`indexes,
               this`texturesInFlight, indexes
      ensures lastTextureWidth == width && lastTextureHeight == height
      ensures hasGaussianSplatTexture && !needsGaussianSplatTexture && !gaussianSplatTexturePending
      ensures texturesInFlight == old(texturesInFlight) - 1
      ensures indexes != null && indexes.Length >= numSplats
      ensures forall i :: 0 <= i < numSplats ==> indexes[i] == i
      ensures if old(indexes) != null && old(indexes.Length) >= numSplats
              then indexes == old(indexes) && forall i :: numSplats <= i < indexes.Length ==> indexes[i] == old(indexes[i])
              else fresh(indexes) && indexes.Length == numSplats
    {
      lastTextureHeight := height;
      lastTextureWidth := width;
      hasGaussianSplatTexture := true;
      needsGaussianSplatTexture := false;
      gaussianSplatTexturePending := false;
      texturesInFlight := texturesInFlight - 1;
      if indexes == null || indexes.Length < numSplats {
        indexes := new int[numSplats];
      }
      FillIdentity(indexes, numSplats);
    }

    /** The loop `_indexes[i] = i` over the first n entries. */
    static method FillIdentity(a: array<int>, n: nat)
      requires n <= a.Length
      modifies a
      ensures forall i :: 0 <= i < n ==> a[i] == i
      ensures forall i :: n <= i < a.Length ==> a[i] == old(a[i])
    {
      var i := 0;
      while i < n
        invariant 0 <= i <= n
        invariant forall j :: 0 <= j < i ==> a[j] == j
        invariant forall j :: n <= j < a.Length ==> a[j] == old(a[j])
      {
        a[i] := i;
        i := i + 1;
      }
    }

    /** The generator's promise rejects: the generation is no longer pending, the texture still needed. */
    method OnTextureRejected()
      requires texturesInFlight > 0
      modifies this`gaussianSplatTexturePending, this`texturesInFlight
      ensures !gaussianSplatTexturePending && texturesInFlight == old(texturesInFlight) - 1
    {
      gaussianSplatTexturePending := false;
      texturesInFlight := texturesInFlight - 1;
    }

    // -------------------------------------------------------------------------
    // Sort scheduler

    /** `GaussianSplatSorter.radixSortIndexes` takes a request: one sort is in flight. */
    method SubmitSort()
      requires !hasSorterPromise
      modifies this`hasSorterPromise, this`sorterPromiseSettled, this`sortsInFlight
      ensures hasSorterPromise && !sorterPromiseSettled && sortsInFlight == 1
    {
      hasSorterPromise := true;
      sorterPromiseSettled := false;
      sortsInFlight := 1;
    }

    /** The sort promise resolves: the sorted order becomes the index buffer and the state SORTED. */
    method OnSortResolved(sortedData: seq<int>)
      requires SortValid() && hasSorterPromise && !sorterPromiseSettled
      modifies this`indexes, this`sorterState, this`sorterPromiseSettled, this`sortsInFlight
      ensures fresh(indexes) && indexes[..] == sortedData
      ensures sorterState == Sorted && sortsInFlight == 0
      ensures SortValid()
    {
      indexes := new int[|sortedData|](i requires 0 <= i < |sortedData| => sortedData[i]);
      sorterState := Sorted;
      sorterPromiseSettled := true;
      sortsInFlight := 0;
    }

    /** The sort promise rejects: the state becomes ERROR and keeps the reason. */
    method OnSortRejected(reason: string)
      requires SortValid() && hasSorterPromise && !sorterPromiseSettled
      modifies this`sorterState, this`sorterError, this`sorterPromiseSettled, this`sortsInFlight
      ensures sorterState == Error && sorterError == Some(reason) && sortsInFlight == 0
      ensures SortValid()
    {
      sorterState := Error;
      sorterError := Some(reason);
      sorterPromiseSettled := true;
      sortsInFlight := 0;
    }

    /** The IDLE branch of `update`. */
    method UpdateIdle(frame: FrameInput) returns (err: Option<UpdateError>, request: Option<TextureRequest>, sortRequested: bool)
      requires sorterState == Idle && |frame.selectedTiles| > 0
      requires SortValid()
      modifies this`numSplats, this`positions, this`scales, this`rotations, this`colors, this`shData,
               this`indexes, this`needsGaussianSplatTexture, this`gaussianSplatTexturePending,
               this`plyIndexToAggregateIndex, this`plyIndicesAggregate, this`boundaryDirty,
               this`sphericalHarmonicsDegree, this`selectedTileLength, this`splatStates, this`needsStateTextureUpdate,
               this`texturesInFlight, this`hasSplatStateTexture, splatStates, this`prevViewMatrix,
               this`hasSorterPromise, this`sorterPromiseSettled, this`sortsInFlight, this`sorterState, this`dirty
      ensures SortValid()
      ensures sortRequested ==> !old(hasSorterPromise) && hasSorterPromise && sortsInFlight == 1 && frame.sortAccepted
      ensures !old(dirty) && frame.viewMatrix == old(prevViewMatrix) ==>
                unchanged(this) && err.None? && request.None? && !sortRequested
      ensures (old(dirty) || frame.viewMatrix != old(prevViewMatrix)) && |frame.selectedTiles| != old(selectedTileLength) ==>
                && (err.Some? ==> numSplats == 0)
                && (err.None? ==> numSplats == TotalPoints(frame.selectedTiles) && selectedTileLength == |frame.selectedTiles|)
      ensures err.Some? ==> err.value.AggregationFailed? && request.None? && !sortRequested
      ensures request.Some? ==>
                && (!old(gaussianSplatTexturePending) || |frame.selectedTiles| != old(selectedTileLength)) && frame.textureAccepted
                && numSplats > 0 && request.value.count == numSplats && gaussianSplatTexturePending
                && sorterState == Idle && err.None? && !sortRequested
      ensures sortRequested ==>
                && sorterState == Idle && numSplats > 0 && !needsGaussianSplatTexture
                && !needsStateTextureUpdate && hasSplatStateTexture
                && prevViewMatrix == frame.viewMatrix && !dirty
      ensures err.None? && numSplats > 0 && !needsGaussianSplatTexture
              && (old(dirty) || frame.viewMatrix != old(prevViewMatrix)) ==>
                && !needsStateTextureUpdate && hasSplatStateTexture && prevViewMatrix == frame.viewMatrix
                && (if hasSorterPromise then sorterState == Idle && !dirty else sorterState == Waiting)
      ensures sorterState == Idle || sorterState == Waiting
    {
      err := None;
      request := None;
      sortRequested := false;
      if !dirty && frame.viewMatrix == prevViewMatrix {
        return;
      }
      if |frame.selectedTiles| != selectedTileLength {
        err := Reaggregate(frame.selectedTiles);
        if err.Some? {
          return;
        }
      }
      request, sortRequested := ScheduleSort(frame);
    }

    /**
     * The IDLE state past aggregation: nothing happens without splats; the
     * splat texture is requested while it is due (one generation at a time);
     * over a current splat texture the state buffer is refreshed and a sort
     * requested, falling back to WAITING when no promise is held afterwards.
     */
    method ScheduleSort(frame: FrameInput) returns (request: Option<TextureRequest>, sortRequested: bool)
      requires sorterState == Idle
      requires SortValid()
      modifies this`gaussianSplatTexturePending, this`texturesInFlight, this`splatStates, this`hasSplatStateTexture,
               this`needsStateTextureUpdate, splatStates, this`prevViewMatrix, this`hasSorterPromise,
               this`sorterPromiseSettled, this`sortsInFlight, this`sorterState, this`dirty
      ensures SortValid()
      ensures numSplats == 0 ==> unchanged(this) && request.None? && !sortRequested
      ensures sortRequested ==> !old(hasSorterPromise) && hasSorterPromise && sortsInFlight == 1 && frame.sortAccepted
      ensures request.Some? ==>
                && !old(gaussianSplatTexturePending) && frame.textureAccepted
                && numSplats > 0 && request.value.count == numSplats && gaussianSplatTexturePending
                && sorterState == Idle && !sortRequested
      ensures sortRequested ==>
                && sorterState == Idle && numSplats > 0 && !needsGaussianSplatTexture
                && !needsStateTextureUpdate && hasSplatStateTexture
                && prevViewMatrix == frame.viewMatrix && !dirty
      ensures numSplats > 0 && !needsGaussianSplatTexture ==>
                && !needsStateTextureUpdate && hasSplatStateTexture && prevViewMatrix == frame.viewMatrix
                && (if hasSorterPromise then sorterState == Idle && !dirty else sorterState == Waiting)
      ensures sorterState == Idle || sorterState == Waiting
    {
      request := None;
      sortRequested := false;
      if numSplats == 0 {
        return;
      }
      if needsGaussianSplatTexture {
        if !gaussianSplatTexturePending {
          request := GenerateSplatTexture(frame.textureAccepted);
        }
        return;
      }
      if needsStateTextureUpdate || !hasSplatStateTexture {
        UpdateSplatStateTexture();
      }
      prevViewMatrix := frame.viewMatrix;
      if !hasSorterPromise && frame.sortAccepted {
        SubmitSort();
        sortRequested := true;
      }
      if !hasSorterPromise {
        sorterState := Waiting;
        return;
      }
      dirty := false;
    }

    /**
     * `update(frameState)`. Past the visibility, pick-pass and model-matrix
     * checks, the sort state decides: IDLE re-aggregates on a new tile count,
     * waits for the splat texture, refreshes the state texture and requests a
     * sort (falling back to WAITING when the sorter refuses); WAITING retries
     * the request and moves to SORTING once it is taken; SORTING waits; SORTED
     * returns to IDLE; ERROR throws the stored error. At most one sort is ever
     * in flight, and a sort is only requested over a current splat texture and
     * state buffer.
     */
    method Update(frame: FrameInput) returns (err: Option<UpdateError>, request: Option<TextureRequest>, sortRequested: bool)
      requires SortValid()
      modifies this`numSplats, this`positions, this`scales, this`rotations, this`colors, this`shData,
               this`indexes, this`needsGaussianSplatTexture, this`gaussianSplatTexturePending,
               this`plyIndexToAggregateIndex, this`plyIndicesAggregate, this`boundaryDirty,
               this`sphericalHarmonicsDegree, this`selectedTileLength, this`splatStates, this`needsStateTextureUpdate,
               this`texturesInFlight, this`hasSplatStateTexture, splatStates, this`prevViewMatrix,
               this`hasSorterPromise, this`sorterPromiseSettled, this`sortsInFlight, this`sorterState, this`dirty
      ensures SortValid()
      ensures sortRequested ==> !old(hasSorterPromise) && hasSorterPromise && sortsInFlight == 1 && frame.sortAccepted
      ensures !frame.show || |frame.selectedTiles| == 0 || frame.pickPass ==>
                unchanged(this) && err.None? && request.None? && !sortRequested
      ensures frame.show && |frame.selectedTiles| > 0 && !frame.pickPass && frame.modelMatrixChanged ==>
                && dirty && sorterState == old(sorterState) && hasSorterPromise == old(hasSorterPromise)
                && numSplats == old(numSplats) && err.None? && request.None? && !sortRequested
      ensures Proceeds(frame) && old(sorterState) == Sorting ==>
                unchanged(this) && err.None? && request.None? && !sortRequested
      ensures Proceeds(frame) && old(sorterState) == Error ==>
                unchanged(this) && err == Some(SortFailed(old(sorterError).value)) && request.None? && !sortRequested
      ensures Proceeds(frame) && old(sorterState) == Sorted ==>
                sorterState == Idle && !hasSorterPromise && !dirty && err.None? && request.None? && !sortRequested
      ensures Proceeds(frame) && (old(sorterState) == Waiting || old(sorterState) == Sorted) ==>
                && numSplats == old(numSplats) && indexes == old(indexes) && splatStates == old(splatStates)
                && positions == old(positions) && plyIndicesAggregate == old(plyIndicesAggregate)
                && needsGaussianSplatTexture == old(needsGaussianSplatTexture) && prevViewMatrix == old(prevViewMatrix)
      ensures Proceeds(frame) && old(sorterState) == Waiting ==>
                if frame.sortAccepted then sorterState == Sorting && sortRequested && !dirty && err.None?
                else unchanged(this) && err.None? && !sortRequested
      ensures Proceeds(frame) && old(sorterState) == Idle && !old(dirty) && frame.viewMatrix == old(prevViewMatrix) ==>
                unchanged(this) && err.None? && request.None? && !sortRequested
      ensures Proceeds(frame) && old(sorterState) == Idle && (old(dirty) || frame.viewMatrix != old(prevViewMatrix))
              && |frame.selectedTiles| != old(selectedTileLength) ==>
                && (err.Some? ==> err.value.AggregationFailed? && numSplats == 0)
                && (err.None? ==> numSplats == TotalPoints(frame.selectedTiles) && selectedTileLength == |frame.selectedTiles|)
      ensures request.Some? ==>
                && old(sorterState) == Idle && frame.textureAccepted
                && (!old(gaussianSplatTexturePending) || |frame.selectedTiles| != old(selectedTileLength))
                && numSplats > 0 && request.value.count == numSplats && gaussianSplatTexturePending
                && sorterState == Idle && err.None? && !sortRequested
      ensures sortRequested && old(sorterState) == Idle ==>
                && sorterState == Idle && numSplats > 0 && !needsGaussianSplatTexture
                && !needsStateTextureUpdate && hasSplatStateTexture
                && prevViewMatrix == frame.viewMatrix && !dirty
      ensures Proceeds(frame) && old(sorterState) == Idle && err.None? && numSplats > 0 && !needsGaussianSplatTexture
              && (old(dirty) || frame.viewMatrix != old(prevViewMatrix)) ==>
                && !needsStateTextureUpdate && hasSplatStateTexture && prevViewMatrix == frame.viewMatrix
                && (if hasSorterPromise then sorterState == Idle && !dirty else sorterState == Waiting)
    {
      err := None;
      request := None;
      sortRequested := false;
      if !frame.show || |frame.selectedTiles| == 0 {
        return;
      }
      if frame.pickPass {
        return;
      }
      if frame.modelMatrixChanged {
        dirty := true;
        return;
      }
      if sorterState == Idle {
        err, request, sortRequested := UpdateIdle(frame);
        return;
      } else if sorterState == Waiting {
        if !hasSorterPromise && frame.sortAccepted {
          SubmitSort();
          sortRequested := true;
        }
        if !hasSorterPromise {
          sorterState := Waiting;
          return;
        }
        sorterState := Sorting;
      } else if sorterState == Sorting {
        return;
      } else if sorterState == Sorted {
        sorterState := Idle;
        dirty := false;
        hasSorterPromise := false;
        sorterPromiseSettled := false;
      } else {
        err := Some(SortFailed(sorterError.value));
        return;
      }
      dirty := false;
    }
  }

  /** `update` gets past the visibility, pick-pass and model-matrix checks. */
  predicate Proceeds(frame: FrameInput)
  {
    frame.show && |frame.selectedTiles| > 0 && !frame.pickPass && !frame.modelMatrixChanged
  }

  /** The candidates with those past the end of the position buffer marked skipped. */
  function Effective(cands: seq<Picking.Candidate>, positionsLength: nat): (e: seq<Picking.Candidate>)
    ensures |e| == |cands|
    ensures forall k :: 0 <= k < |cands| ==> e[k] == Picking.WithinBuffer(cands[k], positionsLength)
  {
    seq(|cands|, k requires 0 <= k < |cands| => Picking.WithinBuffer(cands[k], positionsLength))
  }
}
