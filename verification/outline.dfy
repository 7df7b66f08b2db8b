/**
 * `GaussianSplatOutline`: the post-process that outlines the splats of one
 * selected tileset. Its CPU side is an enabled flag mirrored onto the
 * edge-detection stage, the selected tileset, and a square-ish
 * one-byte-per-splat state buffer (bit 0 = selected) uploaded to a texture
 * that the selected primitive shares.
 */
module SplatOutline {
  import opened Wrappers
  import opened SplatStateCodec
  import opened OutlineParameters
  import StateTexture
  import SplatPrimitive

  /** The one property of a `Cesium3DTileset` the outline reads. */
  class Tileset {
    var gaussianSplatPrimitive: SplatPrimitive.GaussianSplatPrimitive?

    constructor (primitive: SplatPrimitive.GaussianSplatPrimitive?)
      ensures gaussianSplatPrimitive == primitive
    {
      gaussianSplatPrimitive := primitive;
    }
  }

  /** The tileset's primitive, as the set of objects a frame may name: empty without a tileset or a primitive. */
  function PrimitiveOf(tileset: Tileset?): set<SplatPrimitive.GaussianSplatPrimitive>
    reads tileset
  {
    if tileset != null && tileset.gaussianSplatPrimitive != null then {tileset.gaussianSplatPrimitive} else {}
  }

  /** `Math.ceil(Math.sqrt(n))`: the least `w` with `w * w >= n`. */
  function CeilSqrt(n: nat): (w: nat)
    ensures w * w >= n
    ensures w == 0 || (w - 1) * (w - 1) < n
  {
    CeilSqrtFrom(n, 0)
  }

  /** Counts up from `w`, every smaller candidate being too small. */
  function CeilSqrtFrom(n: nat, w: nat): (r: nat)
    requires w == 0 || (w - 1) * (w - 1) < n
    ensures r * r >= n
    ensures r == 0 || (r - 1) * (r - 1) < n
    decreases n - w
  {
    if w * w >= n then w
    else
      assert w <= w * w;
      CeilSqrtFrom(n, w + 1)
  }

  /**
   * `Math.ceil(numSplats / width)`: `None` for `0 / 0`, which is `NaN` in
   * JavaScript (a width of 0 only comes with no splats).
   */
  function StateHeight(numSplats: nat, width: nat): (h: Option<nat>)
    ensures h.None? <==> width == 0
    ensures h.Some? ==> h.value * width >= numSplats && (h.value == 0 || (h.value - 1) * width < numSplats)
  {
    if width == 0 then None else Some(CeilDiv(numSplats, width))
  }

  /** `width * height` as a `Uint8Array` length: `NaN` becomes 0. */
  function StateSize(width: nat, height: Option<nat>): nat
  {
    if height.Some? then width * height.value else 0
  }

  /** The fresh buffer's layout: every splat selected, the padding clear. */
  function InitialStates(numSplats: nat, size: nat): (s: seq<bv8>)
    ensures |s| == size
    ensures forall i :: 0 <= i < size ==> (s[i] == 1 <==> i < numSplats) && (s[i] == 0 <==> i >= numSplats)
  {
    seq(size, i => if i < numSplats then 1 else 0)
  }

  /** The state buffer of `numSplats` splats is large enough and its texture as small as a square layout allows. */
  lemma {:induction false} StateLayoutFits(numSplats: nat)
    ensures var w := CeilSqrt(numSplats);
            StateSize(w, StateHeight(numSplats, w)) >= numSplats
            && (numSplats > 0 ==> StateSize(w, StateHeight(numSplats, w)) < numSplats + w)
  {
    var w := CeilSqrt(numSplats);
    if numSplats > 0 {
      var h := StateHeight(numSplats, w).value;
      assert h * w >= numSplats;
      assert h == 0 || (h - 1) * w < numSplats;
      assert h * w == (h - 1) * w + w by {
        if h > 0 {
          MulPred(h, w);
        }
      }
    }
  }

  lemma MulPred(h: nat, w: nat)
    requires h > 0
    ensures h * w == (h - 1) * w + w
  { }

  /** Bit 0 set or cleared, the other seven bits kept. */
  function WithSelected(b: bv8, selected: bool): (r: bv8)
    ensures IsSelected(r) <==> selected
    ensures IsLocked(r) == IsLocked(b) && GroupOf(r) == GroupOf(b)
  {
    if selected then b | 1 else b & 0xFE
  }

  class GaussianSplatOutline {
    var enabled: bool
    var selectedTileset: Tileset?
    var stateTexture: StateTexture.Texture?
    var stateData: array?<bv8>
    var stateTextureWidth: nat
    /** A number that is `NaN` after laying out zero splats. */
    var stateTextureHeight: Option<nat>
    /** The edge-detection post-process stage's `enabled`, `None` before it exists. */
    var edgeDetectionStageEnabled: Option<bool>

    /** The texture holds the buffer's bytes as last uploaded. */
    predicate Mirrored()
      reads this, stateData, stateTexture
    {
      stateTexture != null && stateData != null ==> stateTexture.data == stateData[..]
    }

    /** The constructor and `_initialize`: disabled, nothing selected, a disabled edge-detection stage. */
    constructor ()
      ensures !enabled && selectedTileset == null
      ensures stateTexture == null && stateData == null
      ensures stateTextureWidth == 0 && stateTextureHeight == Some(0)
      ensures edgeDetectionStageEnabled == Some(false)
      ensures Mirrored()
    {
      enabled := false;
      selectedTileset := null;
      stateTexture := null;
      stateData := null;
      stateTextureWidth := 0;
      stateTextureHeight := Some(0);
      edgeDetectionStageEnabled := Some(false);
    }

    /** The `enabled` setter: a no-op for the current value; otherwise the stage follows, if it exists. */
    method SetEnabled(value: bool)
      modifies this
      ensures old(enabled) == value ==> unchanged(this)
      ensures enabled == value
      ensures edgeDetectionStageEnabled.Some? <==> old(edgeDetectionStageEnabled).Some?
      ensures old(enabled) != value && edgeDetectionStageEnabled.Some? ==> edgeDetectionStageEnabled.value == value
      ensures selectedTileset == old(selectedTileset) && stateTexture == old(stateTexture) && stateData == old(stateData)
      ensures stateTextureWidth == old(stateTextureWidth) && stateTextureHeight == old(stateTextureHeight)
    {
      if enabled == value {
        return;
      }
      enabled := value;
      if edgeDetectionStageEnabled.Some? {
        edgeDetectionStageEnabled := Some(value);
      }
    }

    /**
     * `_initializeStateTexture`: lays the primitive's splats out on a
     * `ceil(sqrt(n))`-wide grid, marks every splat selected, and uploads the
     * buffer into the current texture when its size matches, into a new
     * texture otherwise.
     */
    method InitializeStateTexture(primitive: SplatPrimitive.GaussianSplatPrimitive)
      modifies this, stateTexture
      ensures stateTextureWidth == CeilSqrt(primitive.numSplats)
      ensures stateTextureHeight == StateHeight(primitive.numSplats, stateTextureWidth)
      ensures stateData != null && fresh(stateData)
      ensures stateData[..] == InitialStates(primitive.numSplats, StateSize(stateTextureWidth, stateTextureHeight))
      ensures stateTexture != null && stateTexture.width == stateTextureWidth && stateTexture.height == stateTextureHeight
      ensures stateTexture == old(stateTexture) || fresh(stateTexture)
      ensures Mirrored()
      ensures enabled == old(enabled) && selectedTileset == old(selectedTileset)
      ensures edgeDetectionStageEnabled == old(edgeDetectionStageEnabled)
    {
      var n := primitive.numSplats;
      stateTextureWidth := CeilSqrt(n);
      stateTextureHeight := StateHeight(n, stateTextureWidth);
      StateLayoutFits(n);
      var data := SelectedStates(n, StateSize(stateTextureWidth, stateTextureHeight));
      stateData := data;
      if stateTexture != null && stateTexture.width == stateTextureWidth
         && stateTextureHeight.Some? && stateTexture.height == stateTextureHeight {
        stateTexture.CopyFrom(data[..]);
      } else {
        stateTexture := new StateTexture.Texture(stateTextureWidth, stateTextureHeight, data[..]);
      }
    }

    /** The buffer `_initializeStateTexture` fills: `size` zero bytes, then 1 for each of the `numSplats` splats. */
    static method SelectedStates(numSplats: nat, size: nat) returns (data: array<bv8>)
      requires numSplats <= size
      ensures fresh(data)
      ensures data[..] == InitialStates(numSplats, size)
    {
      data := new bv8[size](_ => 0);
      var i := 0;
      while i < numSplats
        invariant 0 <= i <= numSplats
        invariant forall k :: 0 <= k < size ==> data[k] == if k < i then 1 else 0
      {
        data[i] := 1;
        i := i + 1;
      }
      assert data[..] == InitialStates(numSplats, size);
    }

    /**
     * `selectTileset`: ignored without a tileset or a primitive; otherwise
     * lays out the state buffer, hands the texture and its size to the
     * primitive, and enables the outline.
     */
    method SelectTileset(tileset: Tileset?)
      modifies this, stateTexture
      modifies PrimitiveOf(tileset)`stateTexture,
               PrimitiveOf(tileset)`stateTextureWidth,
               PrimitiveOf(tileset)`stateTextureHeight
      ensures tileset == null || old(tileset.gaussianSplatPrimitive) == null ==> unchanged(this) && (stateTexture == null || unchanged(stateTexture))
      ensures tileset != null && old(tileset.gaussianSplatPrimitive) != null ==>
                var p := tileset.gaussianSplatPrimitive;
                && p == old(tileset.gaussianSplatPrimitive)
                && selectedTileset == tileset && enabled
                && (old(enabled) ==> edgeDetectionStageEnabled == old(edgeDetectionStageEnabled))
                && (!old(enabled) && edgeDetectionStageEnabled.Some? ==> edgeDetectionStageEnabled.value)
                && (edgeDetectionStageEnabled.Some? <==> old(edgeDetectionStageEnabled).Some?)
                && stateTextureWidth == CeilSqrt(p.numSplats)
                && stateTextureHeight == StateHeight(p.numSplats, stateTextureWidth)
                && stateData != null && fresh(stateData)
                && stateData[..] == InitialStates(p.numSplats, StateSize(stateTextureWidth, stateTextureHeight))
                && stateTexture != null && p.stateTexture == stateTexture
                && p.stateTextureWidth == Some(stateTextureWidth) && p.stateTextureHeight == stateTextureHeight
                && Mirrored()
    {
      if tileset == null || tileset.gaussianSplatPrimitive == null {
        return;
      }
      selectedTileset := tileset;
      var primitive := tileset.gaussianSplatPrimitive;
      InitializeStateTexture(primitive);
      primitive.stateTexture := stateTexture;
      primitive.stateTextureWidth := Some(stateTextureWidth);
      primitive.stateTextureHeight := stateTextureHeight;
      SetEnabled(true);
    }

    /**
     * `deselectTileset`: the selected primitive, if any, drops the shared
     * texture and leaves outline mode; nothing is selected and the outline
     * is disabled.
     */
    method DeselectTileset()
      modifies this
      modifies PrimitiveOf(selectedTileset)`stateTexture,
               PrimitiveOf(selectedTileset)`outlineMode
      ensures selectedTileset == null && !enabled
      ensures old(enabled) && edgeDetectionStageEnabled.Some? ==> !edgeDetectionStageEnabled.value
      ensures !old(enabled) ==> edgeDetectionStageEnabled == old(edgeDetectionStageEnabled)
      ensures edgeDetectionStageEnabled.Some? <==> old(edgeDetectionStageEnabled).Some?
      ensures stateTextureWidth == old(stateTextureWidth) && stateTextureHeight == old(stateTextureHeight)
      ensures old(selectedTileset) != null && old(selectedTileset.gaussianSplatPrimitive) != null ==>
                var p := old(selectedTileset.gaussianSplatPrimitive);
                p.stateTexture == null && p.outlineMode == BooleanMode(false)
      ensures stateTexture == old(stateTexture) && stateData == old(stateData)
    {
      if selectedTileset != null {
        var primitive := selectedTileset.gaussianSplatPrimitive;
        if primitive != null {
          primitive.stateTexture := null;
          primitive.outlineMode := BooleanMode(false);
        }
      }
      selectedTileset := null;
      SetEnabled(false);
    }

    /**
     * `updateSplatState`: sets or clears bit 0 of one entry and re-uploads the
     * buffer. Without a buffer nothing happens; a typed-array store past
     * either end is dropped.
     */
    method UpdateSplatState(splatIndex: int, selected: bool)
      requires Mirrored()
      modifies stateData, stateTexture
      ensures Mirrored()
      ensures stateData == null ==> stateTexture == null || unchanged(stateTexture)
      ensures stateTexture != null ==> stateTexture.width == old(stateTexture.width) && stateTexture.height == old(stateTexture.height)
      ensures stateData != null && 0 <= splatIndex < stateData.Length ==>
                stateData[..] == old(stateData[..])[splatIndex := WithSelected(old(stateData[splatIndex]), selected)]
      ensures stateData != null && !(0 <= splatIndex < stateData.Length) ==> stateData[..] == old(stateData[..])
    {
      if stateData == null {
        return;
      }
      if 0 <= splatIndex < stateData.Length {
        stateData[splatIndex] := WithSelected(stateData[splatIndex], selected);
      }
      if stateTexture != null {
        stateTexture.CopyFrom(stateData[..]);
      }
    }
  }

  /**
   * Selecting splat `i` on a buffer entry and then deselecting it gives back
   * the entry with bit 0 cleared, and the other bits of the entry never move.
   */
  lemma SelectDeselect(b: bv8)
    ensures WithSelected(WithSelected(b, true), false) == WithSelected(b, false)
    ensures WithSelected(WithSelected(b, false), true) == WithSelected(b, true)
    ensures IsSelected(b) ==> WithSelected(b, true) == b
  { }
}
