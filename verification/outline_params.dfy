/**
 * The primitive's outline parameters as values: the mode/cutoff machine of
 * `setOutlineMode` and `setOutlineAlphaCutoff`, the clamped width and kernel
 * radius, and the boundary-clustering parameters. Each setter is a function
 * from the current settings to the new ones, or `None` where the setter
 * returns early and changes nothing.
 */
module OutlineParameters {
  import opened Wrappers
  import opened Numbers
  import Boundary

  /**
   * `_outlineMode`: "centers" or "rings"; the outline post-process also
   * stores a boolean into the same field.
   */
  datatype OutlineMode = Centers | Rings | BooleanMode(on: bool)

  datatype OutlineSettings = OutlineSettings(width: real, alphaCutoff: real, mode: OutlineMode, kernelRadius: int)

  /** The alpha cutoff of the "centers" mode when none is given. */
  const CentersCutoff: real := 0.4

  /** Constructor defaults: width 1.5, cutoff 0.4, "centers", kernel radius 2. */
  const DefaultSettings: OutlineSettings := OutlineSettings(1.5, CentersCutoff, Centers, 2)

  /** The ranges every setter keeps its value in. */
  predicate ValidSettings(s: OutlineSettings)
  {
    s.width >= 0.1 && 0.0 <= s.alphaCutoff <= 1.0 && 1 <= s.kernelRadius <= 4
  }

  /** `setOutlineWidth`: no-op for `undefined`, else the width raised to at least 0.1. */
  function WidthSetting(s: OutlineSettings, width: Option<real>): (r: Option<OutlineSettings>)
    ensures r.None? <==> width.None?
    ensures r.Some? ==> r.value.width >= 0.1 && r.value.width >= width.value
    ensures r.Some? && width.value >= 0.1 ==> r.value.width == width.value
    ensures r.Some? ==> r.value == s.(width := r.value.width)
  {
    if width.None? then None else Some(s.(width := MaxReal(0.1, width.value)))
  }

  /**
   * `setOutlineAlphaCutoff(cutoff, mode)`: a "rings" mode forces cutoff 0;
   * any other given mode means "centers" with the clamped cutoff, or 0.4 when
   * no cutoff is given; a cutoff alone is clamped into [0, 1] and keeps the
   * mode; with neither nothing happens.
   */
  function AlphaCutoffSetting(s: OutlineSettings, cutoff: Option<real>, mode: Option<string>): (r: Option<OutlineSettings>)
    ensures r.None? <==> cutoff.None? && mode.None?
    ensures r.Some? ==> r.value.width == s.width && r.value.kernelRadius == s.kernelRadius
    ensures r.Some? ==> 0.0 <= r.value.alphaCutoff <= 1.0
    ensures mode == Some("rings") ==> r == Some(s.(alphaCutoff := 0.0, mode := Rings))
    ensures mode.Some? && mode != Some("rings") ==> r.value.mode == Centers
    ensures mode.Some? && mode != Some("rings") && cutoff.None? ==> r.value.alphaCutoff == CentersCutoff
    ensures mode.None? && cutoff.Some? ==> r.value.mode == s.mode
    ensures mode != Some("rings") && cutoff.Some? && 0.0 <= cutoff.value <= 1.0 ==> r.value.alphaCutoff == cutoff.value
  {
    if mode.Some? then
      if mode.value == "rings" then Some(s.(alphaCutoff := 0.0, mode := Rings))
      else Some(s.(alphaCutoff := if cutoff.Some? then ClampReal(cutoff.value, 0.0, 1.0) else CentersCutoff, mode := Centers))
    else if cutoff.Some? then Some(s.(alphaCutoff := ClampReal(cutoff.value, 0.0, 1.0)))
    else None
  }

  /**
   * `setOutlineMode(mode)`: "rings" forces cutoff 0; "centers" restores 0.4
   * only when leaving "rings" and otherwise keeps the cutoff; `undefined` or
   * any other string changes nothing.
   */
  function ModeSetting(s: OutlineSettings, mode: Option<string>): (r: Option<OutlineSettings>)
    ensures r.None? <==> mode.None? || (mode.value != "rings" && mode.value != "centers")
    ensures r.Some? ==> r.value.width == s.width && r.value.kernelRadius == s.kernelRadius
    ensures mode == Some("rings") ==> r == Some(s.(alphaCutoff := 0.0, mode := Rings))
    ensures mode == Some("centers") && s.mode == Rings ==> r == Some(s.(alphaCutoff := CentersCutoff, mode := Centers))
    ensures mode == Some("centers") && s.mode != Rings ==> r == Some(s.(mode := Centers))
  {
    if mode.None? then None
    else if mode.value == "rings" then Some(s.(alphaCutoff := 0.0, mode := Rings))
    else if mode.value == "centers" then
      Some(s.(alphaCutoff := if s.mode == Rings then CentersCutoff else s.alphaCutoff, mode := Centers))
    else None
  }

  /** `setOutlineKernelRadius`: the rounded radius clamped to [1, 4]; no-op when undefined or unchanged. */
  function KernelRadiusSetting(s: OutlineSettings, radius: Option<real>): (r: Option<OutlineSettings>)
    ensures r.Some? ==> radius.Some? && 1 <= r.value.kernelRadius <= 4 && r.value.kernelRadius != s.kernelRadius
    ensures r.Some? ==> r.value == s.(kernelRadius := r.value.kernelRadius)
    ensures r.Some? ==> radius.value - 0.5 < r.value.kernelRadius as real <= radius.value + 0.5
                        || (r.value.kernelRadius == 1 && radius.value < 1.5)
                        || (r.value.kernelRadius == 4 && radius.value >= 3.5)
    ensures radius.Some? && r.None? ==> s.kernelRadius == ClampInt(Round(radius.value), 1, 4)
  {
    if radius.None? then None
    else
      var clamped := ClampInt(Round(radius.value), 1, 4);
      if s.kernelRadius == clamped then None else Some(s.(kernelRadius := clamped))
  }

  /** Every outline setter keeps the settings in range. */
  lemma SettersKeepValid(s: OutlineSettings, x: Option<real>, y: Option<real>, mode: Option<string>)
    requires ValidSettings(s)
    ensures WidthSetting(s, x).Some? ==> ValidSettings(WidthSetting(s, x).value)
    ensures AlphaCutoffSetting(s, x, mode).Some? ==> ValidSettings(AlphaCutoffSetting(s, x, mode).value)
    ensures ModeSetting(s, mode).Some? ==> ValidSettings(ModeSetting(s, mode).value)
    ensures KernelRadiusSetting(s, y).Some? ==> ValidSettings(KernelRadiusSetting(s, y).value)
  {
  }

  /** Going to "rings" and back to "centers" restores the default cutoff 0.4, whatever it was before. */
  lemma RingsThenCenters(s: OutlineSettings)
    ensures ModeSetting(s, Some("rings")).Some?
    ensures var t := ModeSetting(s, Some("rings")).value;
            ModeSetting(t, Some("centers")) == Some(s.(alphaCutoff := CentersCutoff, mode := Centers))
  {
  }

  /**
   * Once the outline post-process has stored `false` in the mode field,
   * choosing "centers" no longer restores 0.4: a "rings" cutoff of 0 survives.
   */
  lemma BooleanModeKeepsRingsCutoff(s: OutlineSettings)
    requires s.mode == Rings
    ensures var cleared := s.(mode := BooleanMode(false));
            ModeSetting(cleared, Some("centers")).value.alphaCutoff == s.alphaCutoff
  {
  }

  /** Setting the same radius twice: the second call is a no-op. */
  lemma KernelRadiusIdempotent(s: OutlineSettings, radius: Option<real>)
    ensures KernelRadiusSetting(s, radius).Some? ==> KernelRadiusSetting(KernelRadiusSetting(s, radius).value, radius).None?
  {
  }

  // ---------------------------------------------------------------------------
  // Boundary parameters

  /** The optional fields of `setOutlineBoundaryParameters(options)`. */
  datatype BoundaryOptions = BoundaryOptions(
    cellMultiplier: Option<real>,
    minCellSize: Option<real>,
    neighborRange: Option<real>,
    minCoverage: Option<real>)

  function OrElse(x: Option<real>, current: real): real
  {
    if x.Some? then x.value else current
  }

  /** The ranges `setOutlineBoundaryParameters` clamps each parameter into. */
  predicate ClampedParams(p: Boundary.Params)
  {
    0.1 <= p.cellMultiplier <= 20.0 && 0.01 <= p.minCellSize <= 10.0
    && 1 <= p.neighborRange <= 4 && 0.0 <= p.minCoverage <= 1.0
  }

  /**
   * `setOutlineBoundaryParameters`: each given option (or the current value)
   * clamped, the neighbour range rounded first; no-op when `options` is
   * undefined or nothing changes.
   */
  function BoundaryParamsSetting(p: Boundary.Params, options: Option<BoundaryOptions>): (r: Option<Boundary.Params>)
    ensures options.None? ==> r.None?
    ensures r.Some? ==> ClampedParams(r.value) && r.value != p
    ensures options.Some? && options.value.cellMultiplier.Some? && r.Some? ==>
              r.value.cellMultiplier == ClampReal(options.value.cellMultiplier.value, 0.1, 20.0)
    ensures options.Some? && options.value.cellMultiplier.None? && 0.1 <= p.cellMultiplier <= 20.0 && r.Some? ==>
              r.value.cellMultiplier == p.cellMultiplier
    ensures options.Some? && options.value.minCellSize.Some? && r.Some? ==>
              r.value.minCellSize == ClampReal(options.value.minCellSize.value, 0.01, 10.0)
    ensures options.Some? && options.value.minCellSize.None? && 0.01 <= p.minCellSize <= 10.0 && r.Some? ==>
              r.value.minCellSize == p.minCellSize
    ensures options.Some? && options.value.neighborRange.Some? && r.Some? ==>
              r.value.neighborRange == ClampInt(Round(options.value.neighborRange.value), 1, 4)
    ensures options.Some? && options.value.neighborRange.None? && 1 <= p.neighborRange <= 4 && r.Some? ==>
              r.value.neighborRange == p.neighborRange
    ensures options.Some? && options.value.minCoverage.Some? && r.Some? ==>
              r.value.minCoverage == ClampReal(options.value.minCoverage.value, 0.0, 1.0)
    ensures options.Some? && options.value.minCoverage.None? && 0.0 <= p.minCoverage <= 1.0 && r.Some? ==>
              r.value.minCoverage == p.minCoverage
    ensures options.Some? && ClampedParams(p) && options.value == BoundaryOptions(None, None, None, None) ==> r.None?
  {
    if options.None? then None
    else
      var o := options.value;
      var q := Boundary.Params(
        ClampReal(OrElse(o.cellMultiplier, p.cellMultiplier), 0.1, 20.0),
        ClampReal(OrElse(o.minCellSize, p.minCellSize), 0.01, 10.0),
        ClampInt(if o.neighborRange.Some? then Round(o.neighborRange.value) else p.neighborRange, 1, 4),
        ClampReal(OrElse(o.minCoverage, p.minCoverage), 0.0, 1.0));
      if q == p then None else Some(q)
  }

  /** Applying the same options twice: the second call finds nothing changed. */
  lemma BoundaryParamsIdempotent(p: Boundary.Params, options: Option<BoundaryOptions>)
    ensures BoundaryParamsSetting(p, options).Some? ==>
              BoundaryParamsSetting(BoundaryParamsSetting(p, options).value, options).None?
  {
  }
}
