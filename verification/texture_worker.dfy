/**
 * The texture worker's post-processing step: after the WebAssembly generator
 * has laid out each splat as two RGBA32UI texels (1024 splats per texture
 * row), the worker writes splat i's PLY index into the fourth word of its
 * first texel so that a shader or a read-back can recover it.
 */
module TextureWorker {
  import opened Wrappers

  const TwoTo31: int := 0x8000_0000
  const TwoTo32: int := 0x1_0000_0000

  /** What the worker returns: the texture words and the texture's size in texels. */
  datatype TextureData = TextureData(data: seq<int>, width: nat, height: nat)

  /** What a worker request carries: a WebAssembly configuration turns it into an initialisation request. */
  datatype Request = Initialize(hasWasmBinary: bool) | Generate(plyIndices: Option<seq<int>>, count: nat)

  /** A worker reply: whether initialisation succeeded, or the generated texture. */
  datatype Reply = Initialized(ok: bool) | Generated(texture: TextureData)

  /** `ToInt32`: the 32-bit two's-complement value the shift operators work on. */
  function Int32(i: int): (r: int)
    ensures -TwoTo31 <= r < TwoTo31
    ensures (r - i) % TwoTo32 == 0
  {
    var m := i % TwoTo32;
    if m >= TwoTo31 then m - TwoTo32 else m
  }

  /** `(i & 0x3ff) << 1`: twice the splat's column within its row of 1024. */
  function TexelX(i: int): (x: int)
    ensures 0 <= x <= 2046 && x % 2 == 0
  {
    (Int32(i) % 1024) * 2
  }

  /** `i >> 10`: the splat's row, an arithmetic shift of the 32-bit value. */
  function TexelY(i: int): int
  {
    Int32(i) / 1024
  }

  /** `(texelY * width + texelX) * 4 + 3`: the word that receives splat i's PLY index. */
  function DataIndex(i: int, width: int): int
  {
    (TexelY(i) * width + TexelX(i)) * 4 + 3
  }

  /** Below 2^31 the row and column are the quotient and remainder by 1024. */
  lemma SmallIndexLayout(i: int)
    requires 0 <= i < TwoTo31
    ensures TexelY(i) == i / 1024 && TexelX(i) == (i % 1024) * 2
  {
  }

  /**
   * The word at `w` after the first `n` splats have been processed: the PLY
   * index (as a `Uint32Array` element) of the last splat whose target is `w`,
   * or the generator's word when none is.
   */
  function Injected(data: seq<int>, ply: seq<int>, width: int, n: nat, w: int): int
    requires 0 <= w < |data| && n <= |ply|
  {
    if n == 0 then data[w]
    else if DataIndex(n - 1, width) == w then ply[n - 1] % TwoTo32
    else Injected(data, ply, width, n - 1, w)
  }

  /**
   * `generateSplatTextureWorker` after the generator: the words of `texture`,
   * with the PLY indices written in when they are given for every splat
   * (stores outside the buffer are dropped, as for any typed array).
   */
  method InjectPlyIndices(texture: TextureData, plyIndices: Option<seq<int>>, count: nat) returns (out: TextureData)
    ensures out.width == texture.width && out.height == texture.height && |out.data| == |texture.data|
    ensures plyIndices.None? || |plyIndices.value| != count ==> out.data == texture.data
    ensures plyIndices.Some? && |plyIndices.value| == count ==>
              forall w :: 0 <= w < |out.data| ==> out.data[w] == Injected(texture.data, plyIndices.value, texture.width, count, w)
  {
    if plyIndices.None? || |plyIndices.value| != count {
      return texture;
    }
    var ply := plyIndices.value;
    var words := new int[|texture.data|](w requires 0 <= w < |texture.data| => texture.data[w]);
    var i := 0;
    while i < count
      invariant 0 <= i <= count
      invariant forall w :: 0 <= w < words.Length ==> words[w] == Injected(texture.data, ply, texture.width, i, w)
    {
      var index := DataIndex(i, texture.width);
      if 0 <= index < words.Length {
        words[index] := ply[i] % TwoTo32;
      }
      i := i + 1;
    }
    out := TextureData(words[..], texture.width, texture.height);
  }

  /** The worker's entry point: a WebAssembly configuration is an initialisation request. */
  method HandleRequest(request: Request, generated: TextureData) returns (reply: Reply)
    ensures request.Initialize? ==> reply == Initialized(request.hasWasmBinary)
    ensures request.Generate? ==> reply.Generated? && reply.texture.width == generated.width && reply.texture.height == generated.height
    ensures request.Generate? && (request.plyIndices.None? || |request.plyIndices.value| != request.count) ==>
              reply == Generated(generated)
    ensures request.Generate? && request.plyIndices.Some? && |request.plyIndices.value| == request.count ==>
              |reply.texture.data| == |generated.data|
              && forall w :: 0 <= w < |generated.data| ==>
                   reply.texture.data[w] == Injected(generated.data, request.plyIndices.value, generated.width, request.count, w)
  {
    match request
    case Initialize(hasWasmBinary) =>
      reply := Initialized(hasWasmBinary);
    case Generate(plyIndices, count) =>
      var texture := InjectPlyIndices(generated, plyIndices, count);
      reply := Generated(texture);
  }

  /** Splats in different rows land in different words once a row holds 2047 texels or more. */
  lemma RowsApart(y: int, y': int, x: int, x': int, width: int)
    requires width >= 2047 && 0 <= x <= 2046 && 0 <= x' <= 2046 && y < y'
    ensures y * width + x < y' * width + x'
  {
    assert (y' - y) * width >= width by {
      assert y' - y >= 1;
    }
  }

  /** For rows of at least 2047 texels, distinct splats below 2^31 get distinct target words. */
  lemma DataIndexInjective(i: int, j: int, width: int)
    requires 0 <= i < TwoTo31 && 0 <= j < TwoTo31 && i != j && width >= 2047
    ensures DataIndex(i, width) != DataIndex(j, width)
  {
    SmallIndexLayout(i);
    SmallIndexLayout(j);
    var yi, yj := i / 1024, j / 1024;
    var xi, xj := (i % 1024) * 2, (j % 1024) * 2;
    if yi == yj {
      assert xi != xj;
    } else if yi < yj {
      RowsApart(yi, yj, xi, xj, width);
    } else {
      RowsApart(yj, yi, xj, xi, width);
    }
  }

  /**
   * Reading back: with rows of at least 2047 texels (the generator lays out
   * 1024 splats of two texels per row) splat i's target word holds splat i's
   * PLY index and no later splat overwrites it.
   */
  lemma {:induction false} PlyIndexReadBack(data: seq<int>, ply: seq<int>, width: int, n: nat, i: nat)
    requires n <= |ply| && n <= TwoTo31 && width >= 2047 && i < n
    requires 0 <= DataIndex(i, width) < |data|
    ensures Injected(data, ply, width, n, DataIndex(i, width)) == ply[i] % TwoTo32
  {
    if i != n - 1 {
      DataIndexInjective(i, n - 1, width);
      PlyIndexReadBack(data, ply, width, n - 1, i);
    }
  }

  /** Words that are no splat's target keep the generator's value. */
  lemma {:induction false} UntargetedWordKept(data: seq<int>, ply: seq<int>, width: int, n: nat, w: int)
    requires n <= |ply| && 0 <= w < |data|
    requires forall i :: 0 <= i < n ==> DataIndex(i, width) != w
    ensures Injected(data, ply, width, n, w) == data[w]
  {
    if n != 0 {
      UntargetedWordKept(data, ply, width, n - 1, w);
    }
  }

  /** With narrower rows two splats share a target word and the later one wins: splats 512 and 1024 at width 1024. */
  lemma NarrowRowsCollide()
    ensures DataIndex(512, 1024) == DataIndex(1024, 1024)
  {
    SmallIndexLayout(512);
    SmallIndexLayout(1024);
  }
}
