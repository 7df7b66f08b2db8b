/**
 * Applying `_colorModifications` (PLY index -> replacement colour) to a copy
 * of the aggregate colour buffer before the splat texture is generated.
 * A JavaScript `Map` iterates in insertion order, so the modifications are a
 * sequence of (PLY index, colour) entries with distinct keys.
 */
module ColorModifications {
  import opened Wrappers

  /** One `_colorModifications` entry: a PLY index and its colour components. */
  datatype Entry = Entry(plyIndex: int, color: seq<int>)

  /** `Map.prototype.get`: the colour stored for PLY index `p`, if any. */
  function Lookup(mods: seq<Entry>, p: int): (c: Option<seq<int>>)
    ensures c.Some? <==> exists i :: 0 <= i < |mods| && mods[i].plyIndex == p
    ensures c.Some? ==> exists i :: 0 <= i < |mods| && mods[i].plyIndex == p && mods[i].color == c.value
  {
    if |mods| == 0 then None
    else if mods[0].plyIndex == p then Some(mods[0].color)
    else
      var r := Lookup(mods[1..], p);
      assert forall i :: 0 <= i < |mods| - 1 ==> mods[1..][i] == mods[i + 1];
      r
  }

  /** Storing a number into a `Uint8Array`: modulo 256 for an integer, 0 for `undefined`. */
  function ComponentByte(color: seq<int>, j: int): bv8
  {
    if 0 <= j < |color| then (color[j] % 256) as bv8 else 0
  }

  /** 4 components per colour when the buffer holds exactly 4 bytes per splat, else 3. */
  function ComponentsPerColor(colorsLength: nat, numSplats: nat): nat
  {
    if colorsLength == numSplats * 4 then 4 else 3
  }

  /** A modification writes R, G, B, and A only for an RGBA buffer and a colour with an alpha. */
  predicate WritesComponent(color: seq<int>, j: int, isRgba: bool)
  {
    0 <= j < 3 || (j == 3 && isRgba && |color| > 3)
  }

  /**
   * The primary path, per byte: byte k belongs to splat k / c, component k % c;
   * it takes the modification's component when splat k / c is below `limit`
   * and `numSplats`, has a PLY index, and that PLY index is modified.
   */
  function ModifiedByte(colors: seq<bv8>, mods: seq<Entry>, ply: seq<int>, numSplats: nat, limit: int, k: int): bv8
    requires 0 <= k < |colors|
  {
    var c := ComponentsPerColor(|colors|, numSplats);
    var a := k / c;
    var j := k % c;
    if a < limit && a < numSplats && a < |ply| && Lookup(mods, ply[a]).Some?
       && WritesComponent(Lookup(mods, ply[a]).value, j, c == 4)
    then ComponentByte(Lookup(mods, ply[a]).value, j)
    else colors[k]
  }

  /** The loop over aggregate indices that rewrites the colours of modified PLY indices. */
  method ApplyByPlyIndex(colors: seq<bv8>, mods: seq<Entry>, ply: seq<int>, numSplats: nat) returns (out: seq<bv8>)
    ensures |out| == |colors|
    ensures forall k :: 0 <= k < |colors| ==> out[k] == ModifiedByte(colors, mods, ply, numSplats, numSplats, k)
    ensures forall k :: 0 <= k < |colors| && k / ComponentsPerColor(|colors|, numSplats) >= numSplats ==> out[k] == colors[k]
  {
    var buf := new bv8[|colors|](k requires 0 <= k < |colors| => colors[k]);
    var a := 0;
    while a < numSplats
      invariant 0 <= a <= numSplats
      invariant forall k :: 0 <= k < buf.Length ==> buf[k] == ModifiedByte(colors, mods, ply, numSplats, a, k)
    {
      ApplyToSplat(buf, colors, mods, ply, numSplats, a);
      a := a + 1;
    }
    out := buf[..];
  }

  /** One iteration: rewrite the bytes of splat `a` if its PLY index is modified. */
  method ApplyToSplat(buf: array<bv8>, colors: seq<bv8>, mods: seq<Entry>, ply: seq<int>, numSplats: nat, a: nat)
    requires buf.Length == |colors| && a < numSplats
    requires forall k :: 0 <= k < buf.Length ==> buf[k] == ModifiedByte(colors, mods, ply, numSplats, a, k)
    modifies buf
    ensures forall k :: 0 <= k < buf.Length ==> buf[k] == ModifiedByte(colors, mods, ply, numSplats, a + 1, k)
  {
    var c := ComponentsPerColor(|colors|, numSplats);
    SplatBytes(colors, mods, ply, numSplats, a, c);
    if a < |ply| && Lookup(mods, ply[a]).Some? {
      var color := Lookup(mods, ply[a]).value;
      var base := a * c;
      WriteColor(buf, base, color, c == 4);
      forall k | 0 <= k < buf.Length && k / c == a
        ensures buf[k] == ModifiedByte(colors, mods, ply, numSplats, a + 1, k)
      {
        assert k == base + k % c;
      }
    }
  }

  /** Writes R, G, B (and A for an RGBA buffer and a colour with an alpha) at `base`. */
  method WriteColor(buf: array<bv8>, base: int, color: seq<int>, isRgba: bool)
    modifies buf
    ensures forall k :: 0 <= k < buf.Length ==>
              buf[k] == if WritesComponent(color, k - base, isRgba) then ComponentByte(color, k - base) else old(buf[k])
  {
    WriteComponent(buf, base, 0, ComponentByte(color, 0));
    WriteComponent(buf, base, 1, ComponentByte(color, 1));
    WriteComponent(buf, base, 2, ComponentByte(color, 2));
    if isRgba && |color| > 3 {
      WriteComponent(buf, base, 3, ComponentByte(color, 3));
    }
  }

  /** A typed-array store: ignored past the end. */
  method WriteComponent(buf: array<bv8>, base: int, j: nat, v: bv8)
    modifies buf
    ensures forall k :: 0 <= k < buf.Length ==> buf[k] == if k == base + j then v else old(buf[k])
  {
    if 0 <= base + j < buf.Length {
      buf[base + j] := v;
    }
  }

  /** Only the bytes of splat `a` differ between the limits `a` and `a + 1`. */
  lemma SplatBytes(colors: seq<bv8>, mods: seq<Entry>, ply: seq<int>, numSplats: nat, a: nat, c: nat)
    requires c == ComponentsPerColor(|colors|, numSplats)
    ensures forall k :: 0 <= k < |colors| && k / c != a ==>
              ModifiedByte(colors, mods, ply, numSplats, a + 1, k) == ModifiedByte(colors, mods, ply, numSplats, a, k)
  {
  }

  /** Entry `e` (through the PLY -> aggregate map) writes byte k. */
  predicate CoversByte(e: Entry, plyToAgg: map<int, int>, numSplats: nat, c: nat, k: int)
  {
    e.plyIndex in plyToAgg && plyToAgg[e.plyIndex] < numSplats
    && WritesComponent(e.color, k - plyToAgg[e.plyIndex] * c, c == 4)
  }

  /**
   * The fallback path, per byte: the colour of the last entry, in map order,
   * whose aggregate splat covers byte k; the original byte if none does.
   */
  function FallbackByte(colors: seq<bv8>, mods: seq<Entry>, plyToAgg: map<int, int>, numSplats: nat, k: int): bv8
    requires 0 <= k < |colors|
  {
    if |mods| == 0 then colors[k]
    else
      var e := mods[|mods| - 1];
      var c := ComponentsPerColor(|colors|, numSplats);
      if CoversByte(e, plyToAgg, numSplats, c, k) then ComponentByte(e.color, k - plyToAgg[e.plyIndex] * c)
      else FallbackByte(colors, mods[..|mods| - 1], plyToAgg, numSplats, k)
  }

  /** The loop over `_colorModifications` used when there is no aggregate PLY-index array. */
  method ApplyByMap(colors: seq<bv8>, mods: seq<Entry>, plyToAgg: map<int, int>, numSplats: nat) returns (out: seq<bv8>)
    ensures |out| == |colors|
    ensures forall k :: 0 <= k < |colors| ==> out[k] == FallbackByte(colors, mods, plyToAgg, numSplats, k)
  {
    var buf := new bv8[|colors|](k requires 0 <= k < |colors| => colors[k]);
    var i := 0;
    while i < |mods|
      invariant 0 <= i <= |mods|
      invariant forall k :: 0 <= k < buf.Length ==> buf[k] == FallbackByte(colors, mods[..i], plyToAgg, numSplats, k)
    {
      assert mods[..i + 1][..i] == mods[..i];
      ApplyEntry(buf, colors, mods[..i + 1], plyToAgg, numSplats);
      i := i + 1;
    }
    assert mods[..i] == mods;
    out := buf[..];
  }

  /** One iteration: write the last entry's colour at its aggregate splat, if it maps below `numSplats`. */
  method ApplyEntry(buf: array<bv8>, colors: seq<bv8>, mods: seq<Entry>, plyToAgg: map<int, int>, numSplats: nat)
    requires buf.Length == |colors| && |mods| > 0
    requires forall k :: 0 <= k < buf.Length ==> buf[k] == FallbackByte(colors, mods[..|mods| - 1], plyToAgg, numSplats, k)
    modifies buf
    ensures forall k :: 0 <= k < buf.Length ==> buf[k] == FallbackByte(colors, mods, plyToAgg, numSplats, k)
  {
    var e := mods[|mods| - 1];
    var c := ComponentsPerColor(|colors|, numSplats);
    if e.plyIndex in plyToAgg && plyToAgg[e.plyIndex] < numSplats {
      WriteColor(buf, plyToAgg[e.plyIndex] * c, e.color, c == 4);
    }
  }

  /**
   * The colour copy handed to the texture generator: unchanged without
   * modifications, otherwise rewritten by the primary path when the
   * aggregate PLY-index array exists and by the map path when it does not.
   */
  method ModifiedColors(colors: seq<bv8>, mods: seq<Entry>, plyAggregate: Option<seq<int>>, plyToAgg: map<int, int>,
                        numSplats: nat) returns (out: seq<bv8>)
    ensures |out| == |colors|
    ensures |mods| == 0 ==> out == colors
    ensures |mods| != 0 && plyAggregate.Some? ==>
              forall k :: 0 <= k < |colors| ==> out[k] == ModifiedByte(colors, mods, plyAggregate.value, numSplats, numSplats, k)
    ensures |mods| != 0 && plyAggregate.None? ==>
              forall k :: 0 <= k < |colors| ==> out[k] == FallbackByte(colors, mods, plyToAgg, numSplats, k)
  {
    if |mods| == 0 {
      out := colors;
    } else if plyAggregate.Some? {
      out := ApplyByPlyIndex(colors, mods, plyAggregate.value, numSplats);
    } else {
      out := ApplyByMap(colors, mods, plyToAgg, numSplats);
    }
  }

  /** `_colorModifications` is a `Map`: no PLY index appears twice. */
  predicate DistinctKeys(mods: seq<Entry>)
  {
    forall i, j :: 0 <= i < j < |mods| ==> mods[i].plyIndex != mods[j].plyIndex
  }

  /** The PLY -> aggregate map and the aggregate PLY-index array are inverse on the splats `[0, numSplats)`. */
  predicate Inverse(ply: seq<int>, plyToAgg: map<int, int>, numSplats: nat)
  {
    (forall a :: 0 <= a < numSplats && a < |ply| ==> ply[a] in plyToAgg && plyToAgg[ply[a]] == a)
    && (forall p :: p in plyToAgg && 0 <= plyToAgg[p] < numSplats ==> plyToAgg[p] < |ply| && ply[plyToAgg[p]] == p)
  }

  lemma {:induction false} LookupDistinct(mods: seq<Entry>, i: int)
    requires DistinctKeys(mods) && 0 <= i < |mods|
    ensures Lookup(mods, mods[i].plyIndex) == Some(mods[i].color)
    decreases |mods|
  {
    if i != 0 {
      assert mods[1..][i - 1] == mods[i];
      LookupDistinct(mods[1..], i - 1);
    }
  }

  lemma {:induction false} FallbackUncovered(colors: seq<bv8>, mods: seq<Entry>, plyToAgg: map<int, int>, numSplats: nat, k: int)
    requires 0 <= k < |colors|
    requires forall i :: 0 <= i < |mods| ==> !CoversByte(mods[i], plyToAgg, numSplats, ComponentsPerColor(|colors|, numSplats), k)
    ensures FallbackByte(colors, mods, plyToAgg, numSplats, k) == colors[k]
    decreases |mods|
  {
    if |mods| != 0 {
      var init := mods[..|mods| - 1];
      assert forall i :: 0 <= i < |init| ==> init[i] == mods[i];
      FallbackUncovered(colors, init, plyToAgg, numSplats, k);
    }
  }

  lemma {:induction false} FallbackCovered(colors: seq<bv8>, mods: seq<Entry>, plyToAgg: map<int, int>, numSplats: nat, k: int, i: int)
    requires 0 <= k < |colors| && 0 <= i < |mods|
    requires CoversByte(mods[i], plyToAgg, numSplats, ComponentsPerColor(|colors|, numSplats), k)
    requires forall i' :: 0 <= i' < |mods| && CoversByte(mods[i'], plyToAgg, numSplats, ComponentsPerColor(|colors|, numSplats), k) ==> i' == i
    ensures FallbackByte(colors, mods, plyToAgg, numSplats, k)
            == ComponentByte(mods[i].color, k - plyToAgg[mods[i].plyIndex] * ComponentsPerColor(|colors|, numSplats))
    decreases |mods|
  {
    if i != |mods| - 1 {
      var init := mods[..|mods| - 1];
      assert forall i' :: 0 <= i' < |init| ==> init[i'] == mods[i'];
      FallbackCovered(colors, init, plyToAgg, numSplats, k, i);
    }
  }

  /** A byte covered by an entry belongs to that entry's aggregate splat. */
  lemma CoveredSplat(e: Entry, plyToAgg: map<int, int>, numSplats: nat, c: nat, k: int)
    requires c == 3 || c == 4
    requires 0 <= k && CoversByte(e, plyToAgg, numSplats, c, k)
    ensures 0 <= plyToAgg[e.plyIndex] < numSplats
    ensures k / c == plyToAgg[e.plyIndex] && k % c == k - plyToAgg[e.plyIndex] * c
  {
    var agg := plyToAgg[e.plyIndex];
    var j := k - agg * c;
    if agg < 0 {
      assert false;
    }
    assert 0 <= j < c;
    assert k == agg * c + j;
  }

  /**
   * When the map inverts the aggregate PLY-index array, the map path and the
   * primary path write the same colours: the fallback is only a slower route
   * to the same result.
   */
  lemma {:induction false} PathsAgree(colors: seq<bv8>, mods: seq<Entry>, ply: seq<int>, plyToAgg: map<int, int>, numSplats: nat, k: int)
    requires 0 <= k < |colors|
    requires DistinctKeys(mods) && Inverse(ply, plyToAgg, numSplats)
    ensures ModifiedByte(colors, mods, ply, numSplats, numSplats, k) == FallbackByte(colors, mods, plyToAgg, numSplats, k)
  {
    var c := ComponentsPerColor(|colors|, numSplats);
    var a := k / c;
    var j := k % c;
    if i :| 0 <= i < |mods| && CoversByte(mods[i], plyToAgg, numSplats, c, k) {
      CoveredSplat(mods[i], plyToAgg, numSplats, c, k);
      forall i' | 0 <= i' < |mods| && CoversByte(mods[i'], plyToAgg, numSplats, c, k)
        ensures i' == i
      {
        CoveredSplat(mods[i'], plyToAgg, numSplats, c, k);
        assert mods[i'].plyIndex == ply[a] == mods[i].plyIndex;
      }
      FallbackCovered(colors, mods, plyToAgg, numSplats, k, i);
      LookupDistinct(mods, i);
    } else {
      FallbackUncovered(colors, mods, plyToAgg, numSplats, k);
      if a < numSplats && a < |ply| && Lookup(mods, ply[a]).Some? {
        var i :| 0 <= i < |mods| && mods[i].plyIndex == ply[a] && mods[i].color == Lookup(mods, ply[a]).value;
        assert k - a * c == j;
        assert !CoversByte(mods[i], plyToAgg, numSplats, c, k);
      }
    }
  }
}
