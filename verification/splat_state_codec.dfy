/**
 * The one-byte-per-splat state encoding: bit 0 = selected, bit 1 = locked,
 * bits 2-7 = colour group (0-63).
 */
module SplatStateCodec {

  /** `_maxColorGroups`: group ids live in [0, 63]. */
  const MaxColorGroups: int := 64

  /** Default state-texture width used before the splat texture reports one. */
  const DefaultTextureWidth: nat := 1024

  /** `Math.min(Math.max(0, g), _maxColorGroups - 1)`. */
  function ClampGroup(g: int): (r: int)
    ensures 0 <= r < MaxColorGroups
    ensures 0 <= g < MaxColorGroups ==> r == g
    ensures g < 0 ==> r == 0
    ensures g >= MaxColorGroups ==> r == MaxColorGroups - 1
  {
    if g < 0 then 0 else if g > MaxColorGroups - 1 then MaxColorGroups - 1 else g
  }

  /** Bit 0 of a state byte. */
  predicate IsSelected(b: bv8) { b & 1 == 1 }

  /** Bit 1 of a state byte. */
  predicate IsLocked(b: bv8) { b & 2 == 2 }

  /** Bits 2-7 of a state byte. */
  function GroupOf(b: bv8): (g: int)
    ensures 0 <= g < MaxColorGroups
  {
    (b >> 2) as int
  }

  /**
   * `(clampedGroupId << 2) | (selected ? 1 : 0) | (locked ? 2 : 0)`; each of the
   * three fields decodes back from its own bits.
   */
  function EncodeState(group: int, selected: bool, locked: bool): (b: bv8)
    ensures GroupOf(b) == ClampGroup(group)
    ensures IsSelected(b) <==> selected
    ensures IsLocked(b) <==> locked
  {
    var g := ClampGroup(group) as bv8;
    (g << 2) | (if selected then 1 else 0) | (if locked then 2 else 0)
  }

  /** Every byte is the encoding of its own decoded fields: the encoding is a bijection on bytes. */
  lemma EncodeDecode(b: bv8)
    ensures EncodeState(GroupOf(b), IsSelected(b), IsLocked(b)) == b
  {
    GroupRoundTrip(b);
    Recombine(b);
  }

  /** The group field, clamped and cast back to a byte, is the byte's top six bits. */
  lemma GroupRoundTrip(b: bv8)
    ensures ClampGroup(GroupOf(b)) as bv8 == b >> 2
  {
    ByteIntRoundTrip(b >> 2);
  }

  /** A byte survives the trip through `int`. */
  lemma ByteIntRoundTrip(x: bv8)
    ensures (x as int) as bv8 == x
  { }

  /** A byte is its top six bits with its two flag bits put back. */
  lemma Recombine(b: bv8)
    ensures ((b >> 2) << 2) | (if IsSelected(b) then 1 else 0) | (if IsLocked(b) then 2 else 0) == b
  { }

  /** Width of the state texture: the splat texture's last width if known, else 1024. */
  function StateTextureWidth(lastTextureWidth: nat): (w: nat)
    ensures w > 0
    ensures lastTextureWidth > 0 ==> w == lastTextureWidth
  {
    if lastTextureWidth > 0 then lastTextureWidth else DefaultTextureWidth
  }

  /** `Math.ceil(n / w)` for a positive width. */
  function CeilDiv(n: nat, w: nat): (h: nat)
    requires w > 0
    ensures h * w >= n
    ensures h > 0 ==> (h - 1) * w < n
  {
    (n + w - 1) / w
  }

  /** `textureWidth * Math.ceil(numSplats / textureWidth)`: the state buffer's required size. */
  function StateTextureSize(numSplats: nat, lastTextureWidth: nat): (size: nat)
    ensures size >= numSplats
    ensures size < numSplats + StateTextureWidth(lastTextureWidth)
  {
    var w := StateTextureWidth(lastTextureWidth);
    w * CeilDiv(numSplats, w)
  }
}
