/**
 * The single-channel, one-byte-per-texel state texture the outline pass
 * creates. The outline and the primitive it selects hold the same texture
 * object, so an upload through one is seen through the other.
 */
module StateTexture {
  import opened Wrappers

  /** A `Texture` reduced to its size and the bytes last uploaded to it. */
  class Texture {
    var width: nat
    /** `undefined`/`NaN` heights are `None`. */
    var height: Option<nat>
    var data: seq<bv8>

    /** `new Texture({ width, height, source: { arrayBufferView } })`: the source is copied. */
    constructor (width: nat, height: Option<nat>, data: seq<bv8>)
      ensures this.width == width && this.height == height && this.data == data
    {
      this.width := width;
      this.height := height;
      this.data := data;
    }

    /** `copyFrom({ source: { arrayBufferView } })`: new contents, same size. */
    method CopyFrom(source: seq<bv8>)
      modifies this
      ensures data == source && width == old(width) && height == old(height)
    {
      data := source;
    }
  }
}
