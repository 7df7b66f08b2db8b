/**
 * Re-aggregation of the selected tiles into one splat set: per-tile attribute
 * buffers are concatenated in tile order, and every splat gets a PLY index
 * (the row of the source PLY file it came from) in two structures, the
 * aggregate PLY-index array and the PLY -> aggregate-index map.
 */
module Aggregation {
  import opened Wrappers

  /** `typeof tile.extras.plyIndexRange.start`: a number, or something else. */
  datatype StartValue = NumberStart(start: int) | OtherStart

  /** The part of a selected tile (`tile.content` plus its extras) that aggregation reads. */
  datatype Tile = Tile(
    pointsLength: nat,
    plyIndices: Option<seq<int>>,
    positions: seq<real>,
    scales: seq<real>,
    rotations: seq<real>,
    colors: seq<bv8>,
    colorComponents: nat,
    shDegree: nat,
    packedSh: Option<seq<int>>,
    extrasStart: Option<StartValue>,
    headerExtrasStart: Option<int>)

  /** Why the typed-array `set` in aggregation throws. */
  datatype AggregationError =
    | RangeError   // a tile buffer does not fit behind the running offset
    | TypeError    // a tile has spherical harmonics but no packed data

  /** `_getTilePlyStartIndex`: a numeric `extras` start, else the header's start, else 0. */
  function TilePlyStartIndex(t: Tile): (s: int)
    ensures t.extrasStart.Some? && t.extrasStart.value.NumberStart? ==> s == t.extrasStart.value.start
    ensures !(t.extrasStart.Some? && t.extrasStart.value.NumberStart?) && t.headerExtrasStart.Some? ==>
              s == t.headerExtrasStart.value
    ensures !(t.extrasStart.Some? && t.extrasStart.value.NumberStart?) && t.headerExtrasStart.None? ==> s == 0
  {
    match t.extrasStart
    case Some(NumberStart(s)) => s
    case _ => if t.headerExtrasStart.Some? then t.headerExtrasStart.value else 0
  }

  /** The tile carries one PLY index per point. */
  predicate HasExactPlyIndices(t: Tile)
  {
    t.plyIndices.Some? && |t.plyIndices.value| == t.pointsLength
  }

  /** `totalElements`: the summed `pointsLength` of the tiles. */
  function TotalPoints(tiles: seq<Tile>): nat
  {
    if |tiles| == 0 then 0 else TotalPoints(tiles[..|tiles| - 1]) + tiles[|tiles| - 1].pointsLength
  }

  const TwoTo32: int := 0x1_0000_0000

  /** A store into a `Uint32Array` element: the value modulo 2^32. */
  function Uint32(v: int): (r: int)
    ensures 0 <= r < TwoTo32
    ensures (r - v) % TwoTo32 == 0
    ensures 0 <= v < TwoTo32 ==> r == v
  {
    v % TwoTo32
  }

  /** Every PLY index the tile carries fits a `Uint32Array` element. */
  predicate PlyIndicesFitUint32(t: Tile)
  {
    t.plyIndices.Some? ==> forall i :: 0 <= i < |t.plyIndices.value| ==> 0 <= t.plyIndices.value[i] < TwoTo32
  }

  /**
   * The PLY indices the aggregate array stores for a tile that starts at
   * aggregate index `offset`, each as a `Uint32Array` element.
   */
  function AggregatePlyOfTile(t: Tile, offset: int): (s: seq<int>)
    ensures |s| == t.pointsLength
    ensures forall i :: 0 <= i < |s| ==> 0 <= s[i] < TwoTo32
  {
    var s := if HasExactPlyIndices(t) then seq(t.pointsLength, i requires 0 <= i < t.pointsLength => Uint32(t.plyIndices.value[i]))
             else seq(t.pointsLength, i => Uint32(offset + i));
    assert forall i :: 0 <= i < |s| ==> s[i] == Uint32(if HasExactPlyIndices(t) then t.plyIndices.value[i] else offset + i);
    s
  }

  /** `_plyIndicesAggregate`: each tile's PLY indices at its aggregate offset. */
  function AggregatePly(tiles: seq<Tile>): (s: seq<int>)
    ensures |s| == TotalPoints(tiles)
    ensures forall k :: 0 <= k < |s| ==> 0 <= s[k] < TwoTo32
  {
    if |tiles| == 0 then []
    else
      var prefix := tiles[..|tiles| - 1];
      AggregatePly(prefix) + AggregatePlyOfTile(tiles[|tiles| - 1], TotalPoints(prefix))
  }

  /** The PLY indices the inverse map is keyed on for a tile. */
  function MapKeysOfTile(t: Tile): (s: seq<int>)
    ensures |s| == t.pointsLength
  {
    if HasExactPlyIndices(t) then t.plyIndices.value
    else seq(t.pointsLength, i => TilePlyStartIndex(t) + i)
  }

  /** The keys the map is built from, one per aggregate index. */
  function MapKeys(tiles: seq<Tile>): (s: seq<int>)
    ensures |s| == TotalPoints(tiles)
  {
    if |tiles| == 0 then [] else MapKeys(tiles[..|tiles| - 1]) + MapKeysOfTile(tiles[|tiles| - 1])
  }

  /** Setting `keys[k] -> k` for k in order; a later key overwrites an earlier one. */
  function IndexMap(keys: seq<int>): map<int, int>
  {
    if |keys| == 0 then map[] else IndexMap(keys[..|keys| - 1])[keys[|keys| - 1] := |keys| - 1]
  }

  // ---------------------------------------------------------------------------
  // Properties of the two PLY structures

  /**
   * The inverse map holds exactly the keys, and each key maps to the last
   * aggregate index that carries it.
   */
  lemma {:induction false} IndexMapLastWriter(keys: seq<int>, x: int)
    ensures x in IndexMap(keys) <==> x in keys
    ensures x in IndexMap(keys) ==>
              var k := IndexMap(keys)[x];
              0 <= k < |keys| && keys[k] == x && forall j :: k < j < |keys| ==> keys[j] != x
  {
    if |keys| > 0 {
      var prefix := keys[..|keys| - 1];
      IndexMapLastWriter(prefix, x);
      assert keys == prefix + [keys[|keys| - 1]];
    }
  }

  /** With distinct keys the map inverts the key sequence. */
  lemma IndexMapInverts(keys: seq<int>, k: int)
    requires forall i, j :: 0 <= i < j < |keys| ==> keys[i] != keys[j]
    requires 0 <= k < |keys|
    ensures keys[k] in IndexMap(keys) && IndexMap(keys)[keys[k]] == k
  {
    IndexMapLastWriter(keys, keys[k]);
  }

  /**
   * Where every tile carries exact PLY indices, the aggregate array holds the
   * map's keys as `Uint32Array` elements, and the keys themselves when they
   * all fit.
   */
  lemma {:induction false} ExactTilesAgree(tiles: seq<Tile>)
    requires forall t :: t in tiles ==> HasExactPlyIndices(t)
    ensures |AggregatePly(tiles)| == |MapKeys(tiles)|
    ensures forall k :: 0 <= k < |AggregatePly(tiles)| ==> AggregatePly(tiles)[k] == Uint32(MapKeys(tiles)[k])
    ensures (forall t :: t in tiles ==> PlyIndicesFitUint32(t)) ==> MapKeys(tiles) == AggregatePly(tiles)
  {
    if |tiles| > 0 {
      var prefix := tiles[..|tiles| - 1];
      var last := tiles[|tiles| - 1];
      assert forall t :: t in prefix ==> t in tiles;
      ExactTilesAgree(prefix);
      ExactTileAgrees(last, TotalPoints(prefix));
      WrappedPointwise(AggregatePly(prefix), AggregatePlyOfTile(last, TotalPoints(prefix)), MapKeys(prefix), MapKeysOfTile(last));
    }
  }

  /** One exact tile's array entries are its keys modulo 2^32, and the keys themselves when they fit. */
  lemma ExactTileAgrees(t: Tile, offset: int)
    requires HasExactPlyIndices(t)
    ensures forall i :: 0 <= i < t.pointsLength ==> AggregatePlyOfTile(t, offset)[i] == Uint32(MapKeysOfTile(t)[i])
    ensures PlyIndicesFitUint32(t) ==> AggregatePlyOfTile(t, offset) == MapKeysOfTile(t)
  {
  }

  /** Pointwise wrapping carries over to concatenations. */
  lemma WrappedPointwise(a: seq<int>, a': seq<int>, m: seq<int>, m': seq<int>)
    requires |a| == |m| && |a'| == |m'|
    requires forall k :: 0 <= k < |a| ==> a[k] == Uint32(m[k])
    requires forall k :: 0 <= k < |a'| ==> a'[k] == Uint32(m'[k])
    ensures forall k :: 0 <= k < |a + a'| ==> (a + a')[k] == Uint32((m + m')[k])
  {
  }

  /**
   * A PLY index outside the `Uint32Array` range is lost: the array stores -1
   * as 4294967295, while the map is keyed -1, so the lookup of the stored
   * value finds nothing.
   */
  lemma WrappedPlyIndexLost()
    ensures var t := Tile(1, Some([-1]), [], [], [], [], 4, 0, None, None, None);
            && AggregatePly([t]) == [TwoTo32 - 1]
            && MapKeys([t]) == [-1]
            && AggregatePly([t])[0] !in IndexMap(MapKeys([t]))
  {
    var t := Tile(1, Some([-1]), [], [], [], [], 4, 0, None, None, None);
    assert [t][..0] == [];
    assert AggregatePly([t]) == [TwoTo32 - 1];
    assert MapKeys([t]) == [-1];
    IndexMapLastWriter([-1], TwoTo32 - 1);
  }

  /**
   * Round trip: with exact, pairwise distinct PLY indices that fit a
   * `Uint32Array` element, looking up the PLY index stored for aggregate
   * index k gives k back.
   */
  lemma PlyRoundTrip(tiles: seq<Tile>, k: int)
    requires forall t :: t in tiles ==> HasExactPlyIndices(t) && PlyIndicesFitUint32(t)
    requires forall i, j :: 0 <= i < j < |AggregatePly(tiles)| ==> AggregatePly(tiles)[i] != AggregatePly(tiles)[j]
    requires 0 <= k < TotalPoints(tiles)
    ensures AggregatePly(tiles)[k] in IndexMap(MapKeys(tiles))
    ensures IndexMap(MapKeys(tiles))[AggregatePly(tiles)[k]] == k
  {
    ExactTilesAgree(tiles);
    IndexMapInverts(MapKeys(tiles), k);
  }

  /**
   * Without PLY indices the two structures disagree: a tile whose extras say
   * it starts at PLY row 100 is keyed 100, 101 in the map, while the aggregate
   * array stores 0, 1, which the map does not know.
   */
  lemma FallbackKeysDisagree()
    ensures var t := Tile(2, None, [], [], [], [], 4, 0, None, Some(NumberStart(100)), None);
            && AggregatePly([t]) == [0, 1]
            && MapKeys([t]) == [100, 101]
            && AggregatePly([t])[0] !in IndexMap(MapKeys([t]))
  {
    var t := Tile(2, None, [], [], [], [], 4, 0, None, Some(NumberStart(100)), None);
    assert [t][..0] == [];
    assert AggregatePlyOfTile(t, 0) == [Uint32(0), Uint32(1)];
    assert AggregatePly([t]) == [0, 1];
    assert MapKeys([t]) == [100, 101];
    IndexMapLastWriter([100, 101], 0);
  }

  // ---------------------------------------------------------------------------
  // The loops

  /** The loop over tiles and points that fills `_plyIndexToAggregateIndex`. */
  method BuildPlyIndexMap(tiles: seq<Tile>) returns (m: map<int, int>)
    ensures m == IndexMap(MapKeys(tiles))
  {
    m := map[];
    var offset := 0;
    var k := 0;
    while k < |tiles|
      invariant 0 <= k <= |tiles|
      invariant offset == TotalPoints(tiles[..k])
      invariant m == IndexMap(MapKeys(tiles[..k]))
    {
      assert tiles[..k + 1][..k] == tiles[..k];
      m := MapTilePoints(m, MapKeys(tiles[..k]), MapKeysOfTile(tiles[k]));
      offset := offset + tiles[k].pointsLength;
      k := k + 1;
    }
    assert tiles[..k] == tiles;
  }

  /** The point loop of one tile: `map.set(key, offset + i)` for each of its keys in order. */
  method MapTilePoints(m: map<int, int>, before: seq<int>, keys: seq<int>) returns (m': map<int, int>)
    requires m == IndexMap(before)
    ensures m' == IndexMap(before + keys)
  {
    m' := m;
    var i := 0;
    assert before + keys[..0] == before;
    while i < |keys|
      invariant 0 <= i <= |keys|
      invariant m' == IndexMap(before + keys[..i])
    {
      IndexMapSnoc(before + keys[..i], keys[i]);
      assert before + keys[..i + 1] == (before + keys[..i]) + [keys[i]];
      m' := m'[keys[i] := |before| + i];
      i := i + 1;
    }
    assert keys[..i] == keys;
  }

  /** Setting one more key extends the map by that key at the next index. */
  lemma IndexMapSnoc(keys: seq<int>, x: int)
    ensures IndexMap(keys + [x]) == IndexMap(keys)[x := |keys|]
  {
    assert (keys + [x])[..|keys|] == keys;
  }

  /** `typedArray.set(s, offset)` for a source that fits: only `a[offset..offset + |s|]` changes. */
  method CopyAt<T>(a: array<T>, offset: nat, s: seq<T>)
    requires offset + |s| <= a.Length
    modifies a
    ensures a[..] == old(a[..offset]) + s + old(a[offset + |s|..])
  {
    var i := 0;
    while i < |s|
      invariant 0 <= i <= |s|
      invariant forall j :: 0 <= j < a.Length ==> a[j] == if offset <= j < offset + i then s[j - offset] else old(a[j])
    {
      a[offset + i] := s[i];
      i := i + 1;
    }
    assert a[..] == old(a[..offset]) + s + old(a[offset + |s|..]);
  }

  /** The loop that fills `_plyIndicesAggregate` tile by tile. */
  method BuildPlyIndicesAggregate(tiles: seq<Tile>) returns (a: array<int>)
    ensures fresh(a)
    ensures a[..] == AggregatePly(tiles)
  {
    var total := TotalPoints(tiles);
    a := new int[total];
    var offset := 0;
    var k := 0;
    while k < |tiles|
      invariant 0 <= k <= |tiles|
      invariant offset == TotalPoints(tiles[..k]) <= total
      invariant a[..offset] == AggregatePly(tiles[..k])
    {
      var t := tiles[k];
      var s := AggregatePlyOfTile(t, offset);
      assert tiles[..k + 1][..k] == tiles[..k];
      TotalPointsPrefix(tiles, k + 1);
      CopyAt(a, offset, s);
      assert a[..offset + |s|] == AggregatePly(tiles[..k]) + s;
      offset := offset + t.pointsLength;
      k := k + 1;
    }
    assert tiles[..k] == tiles;
    assert a[..] == a[..offset];
  }

  // ---------------------------------------------------------------------------
  // Attribute buffers

  /** A tile buffer's contents; a missing buffer contributes nothing. */
  function Contents<T>(b: Option<seq<T>>): seq<T>
  {
    if b.Some? then b.value else []
  }

  /** n copies of `zero`: the untouched tail of a freshly allocated typed array. */
  function Zeros<T>(n: nat, zero: T): (z: seq<T>)
    ensures |z| == n
    ensures forall i :: 0 <= i < n ==> z[i] == zero
  {
    seq(n, _ => zero)
  }

  /** The present buffers laid end to end. */
  function FlattenPresent<T>(bufs: seq<Option<seq<T>>>): seq<T>
  {
    if |bufs| == 0 then [] else FlattenPresent(bufs[..|bufs| - 1]) + Contents(bufs[|bufs| - 1])
  }

  /**
   * The exception `set(buffer, offset)` raises first when the buffers are
   * written one after the other into an array of `size` elements: a missing
   * buffer is a TypeError, one that runs past the end a RangeError.
   */
  function FirstFailure<T>(bufs: seq<Option<seq<T>>>, size: nat): Option<AggregationError>
  {
    if |bufs| == 0 then None
    else
      var prefix := bufs[..|bufs| - 1];
      var last := bufs[|bufs| - 1];
      if FirstFailure(prefix, size).Some? then FirstFailure(prefix, size)
      else if last.None? then Some(TypeError)
      else if |FlattenPresent(prefix)| + |last.value| > size then Some(RangeError)
      else None
  }

  /** Writing the buffers succeeds exactly when all are present and together they fit. */
  lemma {:induction false} NoFailureMeansFit<T>(bufs: seq<Option<seq<T>>>, size: nat)
    ensures FirstFailure(bufs, size).None? <==>
              (forall k :: 0 <= k < |bufs| ==> bufs[k].Some?) && |FlattenPresent(bufs)| <= size
  {
    if |bufs| > 0 {
      var prefix := bufs[..|bufs| - 1];
      NoFailureMeansFit(prefix, size);
      FlattenPresentGrows(bufs);
      if FirstFailure(prefix, size).Some? {
        var k :| 0 <= k < |prefix| && (prefix[k].None? || |FlattenPresent(prefix)| > size);
        assert bufs[k] == prefix[k] || |FlattenPresent(prefix)| > size;
      }
    }
  }

  lemma FlattenPresentGrows<T>(bufs: seq<Option<seq<T>>>)
    requires |bufs| > 0
    ensures |FlattenPresent(bufs[..|bufs| - 1])| <= |FlattenPresent(bufs)|
  {
  }

  /**
   * `aggregateAttributeValues`: an array of `size` elements, the tile buffers
   * copied in at a running offset, the rest left zero; or the exception of the
   * first `set` that fails.
   */
  method AggregateBuffers<T>(bufs: seq<Option<seq<T>>>, size: nat, zero: T) returns (r: Result<seq<T>, AggregationError>)
    ensures r == Filled(bufs, size, zero)
  {
    var a := new T[size](_ => zero);
    r := AppendBuffers(a, bufs, zero);
  }

  /** The tile loop of `aggregateAttributeValues` over a zero-filled array. */
  method AppendBuffers<T>(a: array<T>, bufs: seq<Option<seq<T>>>, zero: T) returns (r: Result<seq<T>, AggregationError>)
    requires forall j :: 0 <= j < a.Length ==> a[j] == zero
    modifies a
    ensures r.Err? <==> FirstFailure(bufs, a.Length).Some?
    ensures r.Err? ==> r.error == FirstFailure(bufs, a.Length).value
    ensures r.Ok? ==> r.value == FlattenPresent(bufs) + Zeros(a.Length - |FlattenPresent(bufs)|, zero)
  {
    var offset := 0;
    var k := 0;
    while k < |bufs|
      invariant 0 <= k <= |bufs|
      invariant FirstFailure(bufs[..k], a.Length).None?
      invariant offset == |FlattenPresent(bufs[..k])| <= a.Length
      invariant a[..] == FlattenPresent(bufs[..k]) + Zeros(a.Length - offset, zero)
    {
      assert bufs[..k + 1][..k] == bufs[..k];
      FailureStaysFailure(bufs, k + 1, a.Length);
      if bufs[k].None? {
        return Err(TypeError);
      }
      var b := bufs[k].value;
      if offset + |b| > a.Length {
        return Err(RangeError);
      }
      CopyAt(a, offset, b);
      assert a[..] == FlattenPresent(bufs[..k + 1]) + Zeros(a.Length - (offset + |b|), zero);
      offset := offset + |b|;
      k := k + 1;
    }
    assert bufs[..k] == bufs;
    return Ok(a[..]);
  }

  /** A tile attribute, per tile, as the buffers `aggregateAttributeValues` walks. */
  function TileBuffers<T>(tiles: seq<Tile>, attribute: Tile -> seq<T>): (bufs: seq<Option<seq<T>>>)
    ensures |bufs| == |tiles|
    ensures forall k :: 0 <= k < |tiles| ==> bufs[k] == Some(attribute(tiles[k]))
  {
    seq(|tiles|, k requires 0 <= k < |tiles| => Some(attribute(tiles[k])))
  }

  /**
   * When every tile's buffer holds exactly `components` values per point, the
   * buffers fill the aggregate array exactly: aggregation cannot fail and the
   * result is the plain concatenation.
   */
  lemma {:induction false} ExactBuffersFill<T>(tiles: seq<Tile>, bufs: seq<Option<seq<T>>>, components: nat)
    requires |bufs| == |tiles|
    requires forall k :: 0 <= k < |tiles| ==> bufs[k].Some? && |bufs[k].value| == tiles[k].pointsLength * components
    ensures |FlattenPresent(bufs)| == TotalPoints(tiles) * components
    ensures FirstFailure(bufs, TotalPoints(tiles) * components).None?
  {
    ExactBuffersLength(tiles, bufs, components);
    NoFailureMeansFit(bufs, TotalPoints(tiles) * components);
  }

  lemma {:induction false} ExactBuffersLength<T>(tiles: seq<Tile>, bufs: seq<Option<seq<T>>>, components: nat)
    requires |bufs| == |tiles|
    requires forall k :: 0 <= k < |tiles| ==> bufs[k].Some? && |bufs[k].value| == tiles[k].pointsLength * components
    ensures |FlattenPresent(bufs)| == TotalPoints(tiles) * components
  {
    if |tiles| > 0 {
      var n := |tiles| - 1;
      ExactBuffersLength(tiles[..n], bufs[..n], components);
      var m := TotalPoints(tiles[..n]);
      var p := tiles[n].pointsLength;
      assert |FlattenPresent(bufs)| == m * components + p * components;
      assert (m + p) * components == m * components + p * components;
    }
  }

  /** Once a prefix of the writes fails, the whole sequence fails the same way. */
  lemma {:induction false} FailureStaysFailure<T>(bufs: seq<Option<seq<T>>>, k: nat, size: nat)
    requires k <= |bufs|
    ensures FirstFailure(bufs[..k], size).Some? ==> FirstFailure(bufs, size) == FirstFailure(bufs[..k], size)
    decreases |bufs|
  {
    if k < |bufs| {
      var prefix := bufs[..|bufs| - 1];
      assert prefix[..k] == bufs[..k];
      FailureStaysFailure(prefix, k, size);
    } else {
      assert bufs[..k] == bufs;
    }
  }

  // ---------------------------------------------------------------------------
  // Spherical harmonics

  /** `coefs * (2 / 3)` 32-bit words per splat for SH degree 1, 2, 3; any other degree gives a NaN, hence empty, array. */
  function ShWordsPerSplat(degree: nat): nat
  {
    if degree == 1 then 6 else if degree == 2 then 16 else if degree == 3 then 30 else 0
  }

  /** The tiles that carry spherical harmonics, in order. */
  function ShTiles(tiles: seq<Tile>): (r: seq<Tile>)
  {
    if |tiles| == 0 then []
    else
      var last := tiles[|tiles| - 1];
      ShTiles(tiles[..|tiles| - 1]) + (if last.shDegree > 0 then [last] else [])
  }

  /** Their packed coefficient buffers. */
  function ShBuffers(tiles: seq<Tile>): seq<Option<seq<int>>>
  {
    var sh := ShTiles(tiles);
    seq(|sh|, k requires 0 <= k < |sh| => sh[k].packedSh)
  }

  /**
   * `aggregateShData`: nothing when no tile has spherical harmonics; otherwise
   * an array sized by the first such tile's degree, filled like the other
   * attributes from the SH tiles only.
   */
  method AggregateShData(tiles: seq<Tile>) returns (r: Result<Option<seq<int>>, AggregationError>)
    ensures r == ShFilled(tiles)
  {
    var shTiles := ShTiles(tiles);
    if |shTiles| == 0 {
      return Ok(None);
    }
    var a := new int[ShSize(tiles)](_ => 0);
    var res := AppendBuffers(a, ShBuffers(tiles), 0);
    match res
    case Ok(v) => return Ok(Some(v));
    case Err(e) => return Err(e);
  }

  lemma {:induction false} TotalPointsPrefix(tiles: seq<Tile>, k: nat)
    requires k <= |tiles|
    ensures TotalPoints(tiles[..k]) <= TotalPoints(tiles)
    decreases |tiles|
  {
    if k < |tiles| {
      TotalPointsPrefix(tiles[..|tiles| - 1], k);
      assert tiles[..|tiles| - 1][..k] == tiles[..k];
    } else {
      assert tiles[..k] == tiles;
    }
  }

  // ---------------------------------------------------------------------------
  // The whole re-aggregation

  /** Both PLY-index structures of a re-aggregation, as values. */
  method BuildPlyIndices(tiles: seq<Tile>) returns (m: map<int, int>, ply: seq<int>)
    ensures m == IndexMap(MapKeys(tiles))
    ensures ply == AggregatePly(tiles)
  {
    m := BuildPlyIndexMap(tiles);
    var a := BuildPlyIndicesAggregate(tiles);
    ply := a[..];
  }

  /** What `aggregateAttributeValues` leaves: the filled array, or the exception of the `set` that throws. */
  function Filled<T>(bufs: seq<Option<seq<T>>>, size: nat, zero: T): (r: Result<seq<T>, AggregationError>)
    ensures r.Err? <==> FirstFailure(bufs, size).Some?
    ensures r.Err? ==> r.error == FirstFailure(bufs, size).value
    ensures r.Ok? ==> |r.value| == size
  {
    match FirstFailure(bufs, size)
    case Some(e) => Err(e)
    case None =>
      NoFailureMeansFit(bufs, size);
      Ok(FlattenPresent(bufs) + Zeros(size - |FlattenPresent(bufs)|, zero))
  }

  /** The aggregated attribute arrays and the exception, if any, that cut the aggregation short. */
  datatype Attributes = Attributes(
    positions: Option<seq<real>>,
    scales: Option<seq<real>>,
    rotations: Option<seq<real>>,
    colors: Option<seq<bv8>>,
    shData: Option<seq<int>>,
    failure: Option<AggregationError>)

  function PositionBuffers(tiles: seq<Tile>): seq<Option<seq<real>>> { TileBuffers(tiles, (t: Tile) => t.positions) }
  function ScaleBuffers(tiles: seq<Tile>): seq<Option<seq<real>>> { TileBuffers(tiles, (t: Tile) => t.scales) }
  function RotationBuffers(tiles: seq<Tile>): seq<Option<seq<real>>> { TileBuffers(tiles, (t: Tile) => t.rotations) }
  function ColorBuffers(tiles: seq<Tile>): seq<Option<seq<bv8>>> { TileBuffers(tiles, (t: Tile) => t.colors) }

  /** The colour array holds as many components per splat as the first tile's colour attribute. */
  function ColorComponents(tiles: seq<Tile>): nat
  {
    if |tiles| == 0 then 0 else tiles[0].colorComponents
  }

  /** The SH array's size: `totalElements` times the first SH tile's words per splat. */
  function ShSize(tiles: seq<Tile>): nat
  {
    var sh := ShTiles(tiles);
    if |sh| == 0 then 0 else TotalPoints(tiles) * ShWordsPerSplat(sh[0].shDegree)
  }

  /** What `aggregateShData` leaves: no array without SH tiles, else the filled array or the exception. */
  function ShFilled(tiles: seq<Tile>): (r: Result<Option<seq<int>>, AggregationError>)
    ensures ShTiles(tiles) == [] ==> r == Ok(None)
    ensures ShTiles(tiles) != [] ==> (r.Ok? <==> FirstFailure(ShBuffers(tiles), ShSize(tiles)).None?)
    ensures ShTiles(tiles) != [] && r.Ok? ==> r.value.Some? && |r.value.value| == ShSize(tiles)
  {
    if ShTiles(tiles) == [] then Ok(None)
    else
      match Filled(ShBuffers(tiles), ShSize(tiles), 0)
      case Ok(v) => Ok(Some(v))
      case Err(e) => Err(e)
  }

  /**
   * The five stages chained: the first stage that throws ends the chain,
   * leaving the later attributes empty and reporting its exception.
   */
  function Assemble(positions: Result<seq<real>, AggregationError>, scales: Result<seq<real>, AggregationError>,
                    rotations: Result<seq<real>, AggregationError>, colors: Result<seq<bv8>, AggregationError>,
                    sh: Result<Option<seq<int>>, AggregationError>): (r: Attributes)
    ensures r.positions.Some? ==> positions.Ok? && r.positions.value == positions.value
    ensures r.scales.Some? ==> scales.Ok? && r.scales.value == scales.value && r.positions.Some?
    ensures r.rotations.Some? ==> rotations.Ok? && r.rotations.value == rotations.value && r.scales.Some?
    ensures r.colors.Some? ==> colors.Ok? && r.colors.value == colors.value && r.rotations.Some?
    ensures r.failure.None? <==> positions.Ok? && scales.Ok? && rotations.Ok? && colors.Ok? && sh.Ok?
    ensures r.failure.None? ==> r.colors.Some? && r.shData == sh.value
  {
    if positions.Err? then Attributes(None, None, None, None, None, Some(positions.error))
    else if scales.Err? then Attributes(Some(positions.value), None, None, None, None, Some(scales.error))
    else if rotations.Err? then Attributes(Some(positions.value), Some(scales.value), None, None, None, Some(rotations.error))
    else if colors.Err? then
      Attributes(Some(positions.value), Some(scales.value), Some(rotations.value), None, None, Some(colors.error))
    else if sh.Err? then
      Attributes(Some(positions.value), Some(scales.value), Some(rotations.value), Some(colors.value), None, Some(sh.error))
    else Attributes(Some(positions.value), Some(scales.value), Some(rotations.value), Some(colors.value), sh.value, None)
  }

  /**
   * The attribute arrays in the order the aggregation block builds them
   * (positions, scales, rotations, colours, SH): each is filled only when
   * every earlier one was, and the first `set` that throws ends the block.
   */
  function AggregateAttributes(tiles: seq<Tile>): (r: Attributes)
    ensures r.failure.None? ==> r.positions.Some? && r.scales.Some? && r.rotations.Some? && r.colors.Some?
    ensures r.failure.None? ==> (r.shData.Some? <==> ShTiles(tiles) != [])
    ensures r.rotations.Some? ==> r.positions.Some? && r.scales.Some?
    ensures r.colors.Some? ==> r.rotations.Some?
    ensures r.positions.Some? ==> |r.positions.value| == TotalPoints(tiles) * 3
    ensures r.scales.Some? ==> |r.scales.value| == TotalPoints(tiles) * 3
    ensures r.rotations.Some? ==> |r.rotations.value| == TotalPoints(tiles) * 4
    ensures r.colors.Some? ==> |r.colors.value| == TotalPoints(tiles) * ColorComponents(tiles)
  {
    var total := TotalPoints(tiles);
    var positions := Filled(PositionBuffers(tiles), total * 3, 0.0);
    var scales := Filled(ScaleBuffers(tiles), total * 3, 0.0);
    var rotations := Filled(RotationBuffers(tiles), total * 4, 0.0);
    var colors := Filled(ColorBuffers(tiles), total * ColorComponents(tiles), 0);
    var sh := ShFilled(tiles);
    assert sh.Ok? ==> (sh.value.Some? <==> ShTiles(tiles) != []);
    Assemble(positions, scales, rotations, colors, sh)
  }

  /** The aggregation block's attribute arrays, built in order until a `set` throws. */
  method AggregateValues(tiles: seq<Tile>) returns (r: Attributes)
    ensures r == AggregateAttributes(tiles)
  {
    var total := TotalPoints(tiles);
    var p := AggregateBuffers(PositionBuffers(tiles), total * 3, 0.0);
    if p.Err? {
      return Attributes(None, None, None, None, None, Some(p.error));
    }
    var sc := AggregateBuffers(ScaleBuffers(tiles), total * 3, 0.0);
    if sc.Err? {
      return Attributes(Some(p.value), None, None, None, None, Some(sc.error));
    }
    var rot := AggregateBuffers(RotationBuffers(tiles), total * 4, 0.0);
    if rot.Err? {
      return Attributes(Some(p.value), Some(sc.value), None, None, None, Some(rot.error));
    }
    var col := AggregateBuffers(ColorBuffers(tiles), total * ColorComponents(tiles), 0);
    if col.Err? {
      return Attributes(Some(p.value), Some(sc.value), Some(rot.value), None, None, Some(col.error));
    }
    var sh := AggregateShData(tiles);
    if sh.Err? {
      return Attributes(Some(p.value), Some(sc.value), Some(rot.value), Some(col.value), None, Some(sh.error));
    }
    r := Attributes(Some(p.value), Some(sc.value), Some(rot.value), Some(col.value), sh.value, None);
  }

  /** A tile whose buffers hold exactly the per-point component counts the aggregate arrays use. */
  predicate ExactTile(t: Tile, colorComponents: nat)
  {
    |t.positions| == t.pointsLength * 3 && |t.scales| == t.pointsLength * 3
    && |t.rotations| == t.pointsLength * 4 && |t.colors| == t.pointsLength * colorComponents
    && t.shDegree == 0
  }

  lemma {:induction false} NoShTiles(tiles: seq<Tile>)
    requires forall k :: 0 <= k < |tiles| ==> tiles[k].shDegree == 0
    ensures ShTiles(tiles) == []
  {
    if |tiles| > 0 {
      NoShTiles(tiles[..|tiles| - 1]);
    }
  }

  /**
   * Aggregation of well-formed tiles without spherical harmonics cannot throw,
   * and every attribute array is exactly the tile buffers concatenated in
   * selection order.
   */
  lemma ExactTilesAggregate(tiles: seq<Tile>)
    requires |tiles| > 0
    requires forall k :: 0 <= k < |tiles| ==> ExactTile(tiles[k], tiles[0].colorComponents)
    ensures var r := AggregateAttributes(tiles);
            && r.failure.None? && r.shData.None?
            && r.positions == Some(FlattenPresent(PositionBuffers(tiles)))
            && r.scales == Some(FlattenPresent(ScaleBuffers(tiles)))
            && r.rotations == Some(FlattenPresent(RotationBuffers(tiles)))
            && r.colors == Some(FlattenPresent(ColorBuffers(tiles)))
  {
    var total := TotalPoints(tiles);
    ExactBuffersFill(tiles, PositionBuffers(tiles), 3);
    ExactBuffersFill(tiles, ScaleBuffers(tiles), 3);
    ExactBuffersFill(tiles, RotationBuffers(tiles), 4);
    ExactBuffersFill(tiles, ColorBuffers(tiles), tiles[0].colorComponents);
    NoShTiles(tiles);
    var p := FlattenPresent(PositionBuffers(tiles));
    assert p + Zeros(total * 3 - |p|, 0.0) == p;
    var s := FlattenPresent(ScaleBuffers(tiles));
    assert s + Zeros(total * 3 - |s|, 0.0) == s;
    var q := FlattenPresent(RotationBuffers(tiles));
    assert q + Zeros(total * 4 - |q|, 0.0) == q;
    var c := FlattenPresent(ColorBuffers(tiles));
    assert c + Zeros(total * tiles[0].colorComponents - |c|, 0 as bv8) == c;
  }
}
