# Gaussian-splat editing core, modelled in Dafny

This project models the CPU-side bookkeeping of a Cesium Gaussian-splat tileset
renderer. A tileset's selected tiles are aggregated into one flat splat set. The
user then edits that set by selecting, locking and colour-grouping splats. The
renderer derives its GPU inputs from this state and schedules an asynchronous
depth sort.

The model covers these parts:

- **Per-splat edit state.** The selection and lock sets, the colour-group map,
  the colour-group palette, and the PLY-index variants of the setters
  (`SplatPrimitive`, `ColorPalette`).
- **State buffer.** The one-byte-per-splat buffer: bit 0 selected, bit 1
  locked, bits 2-7 the colour group (`SplatStateCodec`, and
  `SplatPrimitive.GaussianSplatPrimitive.UpdateSplatStateTexture`).
- **Boundary clusterer.** It feeds the "rings" outline: selected splats are
  hashed into x/y grid cells, and a cell with low neighbour coverage gives up
  its splats (`Boundary`). It is recomputed lazily behind a dirty flag.
- **Tile aggregation.** Attribute buffers are concatenated in tile order, and
  two PLY-index structures are built: the aggregate array and the inverse map
  (`Aggregation`).
- **Splat texture request.** Colour modifications keyed by PLY index are
  applied to a copy of the colours (`ColorModifications`). The index buffer is
  reset to the identity once the texture arrives.
- **Sort scheduler.** The IDLE / WAITING / SORTING / SORTED / ERROR machine of
  `update`. The radix-sort service is modelled as a submit that may be refused,
  followed by a resolve or reject event.
- **Outline settings.** The outline parameter setters (`OutlineParameters`) and
  the uniform maps of the two outline passes (`UniformMaps`).
- **Final pick choice.** The last step of `getSplatInfoAtScreenPosition`
  (`Picking`).
- **Outline post-process.** Its enabled flag, tileset selection, square
  state-buffer layout and bit updates (`SplatOutline`). It shares a texture
  with the primitive (`StateTexture`).
- **Texture worker.** The PLY-index injection into the generated splat texture
  (`TextureWorker`).

Mutable objects are Dafny classes: `GaussianSplatPrimitive`,
`GaussianSplatOutline`, `Texture` and `Tileset`. Their methods state the whole
new state. Each loop is a method proved against a specification function, and
the properties of those functions are lemmas. JavaScript behaviour is written
out wherever it matters:

- `0 / 0` is NaN, and `new Uint8Array(NaN)` is empty.
- Typed-array stores past either end are dropped.
- `Uint8Array` stores are taken modulo 256 and `Uint32Array` stores modulo 2^32.
- `>>` and `&` act on the 32-bit two's-complement value.
- `Math.round` rounds halves up.
- A JavaScript `Map` iterates in insertion order.

## Model

| member | source | states |
|---|---|---|
| SplatPrimitive.GaussianSplatPrimitive.constructor | packages/engine/Source/Scene/GaussianSplatPrimitive.js:816-1353 | All defaults: empty sets and maps, magenta selection colour, grey lock colour, boundary dirty with parameters (2.5, 0.5, 1, 0.75), width 1.5, cutoff 0.4, "centers", kernel radius 2, the splat texture needed, the sorter IDLE with no promise; the sort invariant holds and the settings are in range |
| SplatPrimitive.GaussianSplatPrimitive.MarkBoundaryDirty | packages/engine/Source/Scene/GaussianSplatPrimitive.js:1561-1571 | The boundary is marked for recomputation; the cached indices, instance count, vertex array, ring command and statistics are dropped |
| SplatPrimitive.InRange | packages/engine/Source/Scene/GaussianSplatPrimitive.js:1440-1460 | An index is accepted exactly when it occurs in the input and lies in [0, numSplats) |
| SplatPrimitive.GaussianSplatPrimitive.SetSplatSelection | packages/engine/Source/Scene/GaussianSplatPrimitive.js:1426-1489 | The valid indices are added to the selection (flag true or omitted) or removed (false), and no other entry changes; the state texture, the frame and the boundary are marked stale even when no index was valid |
| SplatPrimitive.GaussianSplatPrimitive.SetSplatLock | packages/engine/Source/Scene/GaussianSplatPrimitive.js:1496-1540 | The same for the lock set; the boundary is not touched |
| SplatPrimitive.GaussianSplatPrimitive.ClearSelection | packages/engine/Source/Scene/GaussianSplatPrimitive.js:1545-1550 | The selection becomes empty; the state, the frame and the boundary are marked stale |
| SplatPrimitive.GaussianSplatPrimitive.ClearLocks | packages/engine/Source/Scene/GaussianSplatPrimitive.js:1555-1559 | The lock set becomes empty; the state and the frame are marked stale, and the boundary is not touched |
| SplatPrimitive.AssignGroup | packages/engine/Source/Scene/GaussianSplatPrimitive.js:1996-2020 | After assigning group g to a set of splats, each of them shows g; group 0 removes their entries; every other splat keeps its entry and its group |
| SplatPrimitive.GaussianSplatPrimitive.SetSplatColorGroup | packages/engine/Source/Scene/GaussianSplatPrimitive.js:1978-2031 | The group (default 0) is clamped to [0, 63] and assigned to exactly the valid indices: 0 deletes their entries, any other value stores it; out-of-range indices leave the map alone; the state is marked stale |
| SplatPrimitive.GaussianSplatPrimitive.ClearColorGroups | packages/engine/Source/Scene/GaussianSplatPrimitive.js:2081-2086 | No splat has a group any more; the state is marked stale |
| SplatPrimitive.GaussianSplatPrimitive.SetColorGroupColor | packages/engine/Source/Scene/GaussianSplatPrimitive.js:2038-2061 | For 1 <= g <= 63 the palette is padded with magenta up to slot g and slot g holds the colour; any other g changes nothing, not even the dirty flag |
| ColorPalette.GroupColor | packages/engine/Source/Scene/GaussianSplatPrimitive.js:2068-2076 | No colour outside [0, 63] or past the palette's end; the selection colour for group 0; palette slot g otherwise |
| SplatPrimitive.GaussianSplatPrimitive.GetColorGroupColor | packages/engine/Source/Scene/GaussianSplatPrimitive.js:2068-2076 | On the object's current state: no colour outside [0, 63] or past the palette's end; the selection colour for group 0; palette slot g otherwise |
| ColorPalette.SetThenGetGroupColor | packages/engine/Source/Scene/GaussianSplatPrimitive.js:2038-2076 | After setting group g to C, reading g gives C; slots that already existed keep their colours; new slots below g read magenta; the palette grows only up to g; group 0 still reads the selection colour |
| ColorPalette.ColorGroupColors | packages/engine/Source/Scene/GaussianSplatPrimitive.js:3383-3398 | The 64-colour uniform: slot 0 is the selection colour; slot i is the palette colour where one is set and the selection colour elsewhere; it agrees with getColorGroupColor on every group that has a colour |
| SplatPrimitive.MappedIndices | packages/engine/Source/Scene/GaussianSplatPrimitive.js:2468-2490 | The forwarded indices all lie in [0, numSplats); every input PLY index that maps into that range is forwarded; nothing else is |
| SplatPrimitive.GaussianSplatPrimitive.AggregateIndicesOf | packages/engine/Source/Scene/GaussianSplatPrimitive.js:2468-2490 | The translation loop produces the mapped indices in input order |
| SplatPrimitive.GaussianSplatPrimitive.SetSplatSelectionByPlyIndex | packages/engine/Source/Scene/GaussianSplatPrimitive.js:2448-2504 | When no PLY index maps into [0, numSplats) nothing at all changes; otherwise the selection setter runs on exactly the mapped indices |
| SplatPrimitive.GaussianSplatPrimitive.SetSplatLockByPlyIndex | packages/engine/Source/Scene/GaussianSplatPrimitive.js:2512-2555 | The same for the lock set |
| OutlineParameters.WidthSetting | packages/engine/Source/Scene/GaussianSplatPrimitive.js:2123-2130 | An undefined width changes nothing; otherwise the width becomes the given one raised to at least 0.1, and no other setting changes |
| SplatPrimitive.GaussianSplatPrimitive.SetOutlineWidth | packages/engine/Source/Scene/GaussianSplatPrimitive.js:2123-2130 | The fields follow WidthSetting; a change marks the parameters and the frame dirty; a no-op changes nothing |
| OutlineParameters.AlphaCutoffSetting | packages/engine/Source/Scene/GaussianSplatPrimitive.js:2138-2187 | "rings" forces cutoff 0; any other mode means "centers" with the clamped cutoff, or 0.4 when none is given; a cutoff alone is clamped to [0, 1] and keeps the mode; with neither, nothing happens |
| SplatPrimitive.GaussianSplatPrimitive.SetOutlineAlphaCutoff | packages/engine/Source/Scene/GaussianSplatPrimitive.js:2138-2187 | The fields follow AlphaCutoffSetting, with the dirty flags set on a change |
| OutlineParameters.ModeSetting | packages/engine/Source/Scene/GaussianSplatPrimitive.js:2195-2238 | "rings" forces cutoff 0; "centers" restores 0.4 only when leaving "rings" and otherwise keeps the cutoff; undefined or any other string changes nothing |
| SplatPrimitive.GaussianSplatPrimitive.SetOutlineMode | packages/engine/Source/Scene/GaussianSplatPrimitive.js:2195-2238 | The fields follow ModeSetting, with the dirty flags set on a change |
| OutlineParameters.KernelRadiusSetting | packages/engine/Source/Scene/GaussianSplatPrimitive.js:2244-2267 | The radius is rounded and clamped to [1, 4]; an undefined or unchanged radius changes nothing; only the radius changes |
| SplatPrimitive.GaussianSplatPrimitive.SetOutlineKernelRadius | packages/engine/Source/Scene/GaussianSplatPrimitive.js:2244-2267 | The fields follow KernelRadiusSetting, with the dirty flags set on a change |
| OutlineParameters.SettersKeepValid | packages/engine/Source/Scene/GaussianSplatPrimitive.js:2123-2267 | Every outline setter keeps the width >= 0.1, the cutoff in [0, 1] and the radius in [1, 4] |
| OutlineParameters.RingsThenCenters | packages/engine/Source/Scene/GaussianSplatPrimitive.js:2195-2238 | Switching to "rings" and back to "centers" restores cutoff 0.4, whatever it was before |
| OutlineParameters.BooleanModeKeepsRingsCutoff | packages/engine/Source/Scene/GaussianSplatPrimitive.js:2206-2215 | Once the outline post-process has stored `false` in the mode field, "centers" no longer restores 0.4, and a "rings" cutoff of 0 survives |
| OutlineParameters.KernelRadiusIdempotent | packages/engine/Source/Scene/GaussianSplatPrimitive.js:2244-2267 | Setting the same radius twice makes the second call a no-op |
| OutlineParameters.BoundaryParamsSetting | packages/engine/Source/Scene/GaussianSplatPrimitive.js:2321-2380 | Undefined options change nothing; each given option, or else the current value, is clamped (multiplier [0.1, 20], minimum cell size [0.01, 10], rounded range [1, 4], coverage [0, 1]); an omitted option keeps a current value already in range; a result equal to the current parameters is a no-op |
| OutlineParameters.BoundaryParamsIdempotent | packages/engine/Source/Scene/GaussianSplatPrimitive.js:2321-2380 | Applying the same options twice makes the second call a no-op |
| SplatPrimitive.GaussianSplatPrimitive.SetOutlineBoundaryParameters | packages/engine/Source/Scene/GaussianSplatPrimitive.js:2321-2380 | The parameters follow BoundaryParamsSetting, and a change marks the boundary dirty |
| Boundary.NeighborRange | packages/engine/Source/Scene/GaussianSplatPrimitive.js:374-378 | The neighbour range is a whole number in [1, 4] |
| Boundary.CoverageThreshold | packages/engine/Source/Scene/GaussianSplatPrimitive.js:379-383 | The coverage threshold lies in [0, 1] |
| Boundary.TotalNeighborSlots | packages/engine/Source/Scene/GaussianSplatPrimitive.js:465-466 | A cell has at least 8 neighbour slots |
| Boundary.CellSize | packages/engine/Source/Scene/GaussianSplatPrimitive.js:439-441 | The cell size is at least max(minCellSize, 0.01) |
| Boundary.SumSampleScales | packages/engine/Source/Scene/GaussianSplatPrimitive.js:420-437 | The sampling loop yields the number and the sum of the positive splat scales max(abs(sx), abs(sy)) over the selection |
| Boundary.AverageScaleOf | packages/engine/Source/Scene/GaussianSplatPrimitive.js:420-437 | The representative radius is the mean positive scale, or max(outlineWidth, 1) when there is no sample |
| Boundary.BuildGrid | packages/engine/Source/Scene/GaussianSplatPrimitive.js:442-462 | The grid's keys are exactly the occupied cells, and each cell holds exactly the selected splats that hash to it |
| Boundary.CountNeighborHits | packages/engine/Source/Scene/GaussianSplatPrimitive.js:467-479 | The dx/dy scan counts exactly the occupied cells among the (2r+1)^2 - 1 neighbours |
| Boundary.ScanCell | packages/engine/Source/Scene/GaussianSplatPrimitive.js:467-487 | Scanning one cell adds its splats to the result exactly when its coverage is below the threshold |
| Boundary.ScanCells | packages/engine/Source/Scene/GaussianSplatPrimitive.js:464-488 | The result is exactly the selected splats whose cell is a boundary cell |
| Boundary.ComputeBoundaryIndices | packages/engine/Source/Scene/GaussianSplatPrimitive.js:373-505 | The result and statistics equal the boundary function of the selection, positions, scales, outline width and parameters; its properties follow |
| Boundary.ResultWithinSelection | packages/engine/Source/Scene/GaussianSplatPrimitive.js:385-505 | The result is a subset of the selection; an empty selection gives an empty result without fallback; the selected and boundary counts are the actual sizes |
| Boundary.BoundaryCharacterisation | packages/engine/Source/Scene/GaussianSplatPrimitive.js:439-504 | With positions present, the fallback is taken exactly when no selected splat lies in a boundary cell, and then the whole selection is returned; otherwise a splat is in the result iff it is selected and its cell's coverage is below the threshold; the grid-cell count is the number of occupied cells; the cell size is at least max(minCellSize, 0.01) |
| Boundary.InteriorCellIsNotBoundary | packages/engine/Source/Scene/GaussianSplatPrimitive.js:467-487 | A cell whose whole neighbourhood is occupied has full coverage and is never a boundary cell |
| Boundary.StaleIndexIsNeverBoundary | packages/engine/Source/Scene/GaussianSplatPrimitive.js:442-487 | A selected index past the end of the positions hashes to the "NaN,NaN" cell and is never a boundary splat |
| Boundary.SingleSplatSelection | packages/engine/Source/Scene/GaussianSplatPrimitive.js:480-504 | One selected splat with a position is its own boundary (count 1, one grid cell); the fallback is taken only when the coverage threshold is 0 |
| SplatPrimitive.GaussianSplatPrimitive.EnsureBoundaryResources | packages/engine/Source/Scene/GaussianSplatPrimitive.js:507-525 | While the boundary is clean and its vertex array exists nothing happens; otherwise the boundary and its statistics are recomputed from the current selection, the dirty flag is cleared, and a vertex array exists exactly when the boundary is non-empty |
| SplatStateCodec.ClampGroup | packages/engine/Source/Scene/GaussianSplatPrimitive.js:1982-1986 | The group lies in [0, 63]: an in-range group is kept, a negative one becomes 0, a larger one 63 |
| SplatStateCodec.EncodeState | packages/engine/Source/Scene/GaussianSplatPrimitive.js:2839-2861 | The state byte decodes back to the clamped group (bits 2-7), the selection flag (bit 0) and the lock flag (bit 1) |
| SplatStateCodec.EncodeDecode | packages/engine/Source/Scene/GaussianSplatPrimitive.js:2839-2861 | Every byte is the encoding of its own decoded fields, so the encoding is a bijection onto bytes |
| SplatStateCodec.StateTextureWidth | packages/engine/Source/Scene/GaussianSplatPrimitive.js:2818-2821 | The state texture is the splat texture's width wide when that is known, else 1024 wide |
| SplatStateCodec.CeilDiv | packages/engine/Source/Scene/GaussianSplatPrimitive.js:2818-2821 | The height is the least number of rows that holds all splats |
| SplatStateCodec.StateTextureSize | packages/engine/Source/Scene/GaussianSplatPrimitive.js:2818-2832 | The buffer holds every splat and less than one extra row |
| SplatPrimitive.GaussianSplatPrimitive.FillStates | packages/engine/Source/Scene/GaussianSplatPrimitive.js:2839-2901 | Bytes below numSplats hold each splat's state byte; bytes up to the texture size are 0; bytes beyond it are kept |
| SplatPrimitive.GaussianSplatPrimitive.UpdateSplatStateTexture | packages/engine/Source/Scene/GaussianSplatPrimitive.js:2784-2956 | With no splats nothing changes. Otherwise the buffer is grown when it is too small; splat i's byte is the encoding of its group, selection and lock; the padding up to the texture size is 0; the texture exists; the update flag is cleared |
| Picking.ScanCandidates | packages/engine/Source/Scene/GaussianSplatPrimitive.js:1727-1850 | The scan finds no pixel winner exactly when no candidate is within maxDistance; otherwise the winner is no farther than any candidate and strictly nearer than every later one. The same holds for world distance against worldMaxDistance |
| Picking.Consider | packages/engine/Source/Scene/GaussianSplatPrimitive.js:1768-1850 | One candidate step keeps the scan invariant: no winner iff nothing so far is within the bound, and otherwise the winner is the nearest so far, ties going to the later candidate |
| Picking.WithinBuffer | packages/engine/Source/Scene/GaussianSplatPrimitive.js:1770-1773 | A candidate whose position lies past the end of the buffer is skipped; any other candidate is kept |
| SplatPrimitive.Effective | packages/engine/Source/Scene/GaussianSplatPrimitive.js:1768-1773 | Each candidate is checked against the position buffer |
| Picking.FinalChoice | packages/engine/Source/Scene/GaussianSplatPrimitive.js:1880-1887 | The pixel winner is taken when there is one; failing that the world winner, reported with its world distance; never index -1 |
| Picking.InfoOf | packages/engine/Source/Scene/GaussianSplatPrimitive.js:1946-1958 | The record carries the index and distance, the PLY index when the aggregate array has that entry, the colour group (0 by default), and the selection and lock flags |
| SplatPrimitive.GaussianSplatPrimitive.GetSplatInfo | packages/engine/Source/Scene/GaussianSplatPrimitive.js:1584-1971 | Without positions or candidates there is no result. A result is the record of the splat nearest in pixels within maxDistance (default 40), or else nearest in world space within worldMaxDistance (default 0.05). There is no result exactly when no candidate is within either bound. A candidate within the pixel bound always wins |
| UniformMaps.MaskUniformMap | packages/engine/Source/Scene/GaussianSplatPrimitive.js:331-345 | Every uniform of the base map is kept, and u_outlineMaskPass is added and switched on |
| UniformMaps.RingUniformMap | packages/engine/Source/Scene/GaussianSplatPrimitive.js:347-371 | Every uniform is kept, except that u_outlineRingPass is on (added if absent) and a present u_outlineMaskPass is off |
| UniformMaps.DerivationsIdempotent | packages/engine/Source/Scene/GaussianSplatPrimitive.js:331-371 | Deriving either pass map from its own output changes nothing |
| UniformMaps.PassesExclusive | packages/engine/Source/Scene/GaussianSplatPrimitive.js:331-371 | A ring map built from a mask map has the mask flag off and the ring flag on |
| Aggregation.Uint32 | packages/engine/Source/Scene/GaussianSplatPrimitive.js:4137-4164 | A `Uint32Array` store keeps the value modulo 2^32: the result lies in [0, 2^32), is congruent to the value, and equals it when it is already in range |
| Aggregation.TilePlyStartIndex | packages/engine/Source/Scene/GaussianSplatPrimitive.js:2629-2650 | A numeric start in the tile's extras wins; failing that, the start in the header's extras; failing both, 0 |
| Aggregation.AggregatePly | packages/engine/Source/Scene/GaussianSplatPrimitive.js:4137-4168 | The aggregate PLY-index array has one entry per splat, and every entry lies in [0, 2^32) as a `Uint32Array` element |
| Aggregation.MapKeys | packages/engine/Source/Scene/GaussianSplatPrimitive.js:4049-4131 | The inverse map is keyed on one PLY index per splat |
| Aggregation.IndexMapLastWriter | packages/engine/Source/Scene/GaussianSplatPrimitive.js:4054-4131 | The inverse map holds exactly the keys, and each key maps to the last aggregate index that carries it |
| Aggregation.IndexMapInverts | packages/engine/Source/Scene/GaussianSplatPrimitive.js:4054-4131 | With distinct keys the map inverts the key sequence |
| Aggregation.ExactTilesAgree | packages/engine/Source/Scene/GaussianSplatPrimitive.js:4069-4078 | When every tile carries exact PLY indices, each array entry is the map's key for that splat modulo 2^32; when all of them fit in 32 unsigned bits, the map and the array are keyed alike |
| Aggregation.WrappedPlyIndexLost | packages/engine/Source/Scene/GaussianSplatPrimitive.js:4069-4078 | A PLY index outside [0, 2^32) breaks the pairing: a tile whose index is -1 stores 4294967295 in the array but is keyed -1 in the map, which does not know 4294967295 (see 4137-4149 for the store) |
| Aggregation.PlyRoundTrip | packages/engine/Source/Scene/GaussianSplatPrimitive.js:4049-4168 | With exact, pairwise-distinct PLY indices in [0, 2^32), looking up the PLY index stored for aggregate index k gives k back |
| Aggregation.FallbackKeysDisagree | packages/engine/Source/Scene/GaussianSplatPrimitive.js:4104-4164 | Without PLY indices the two structures disagree: a tile starting at PLY row 100 is keyed 100, 101 in the map, while the array stores 0, 1, which the map does not know |
| Aggregation.BuildPlyIndexMap | packages/engine/Source/Scene/GaussianSplatPrimitive.js:4049-4131 | The map loop builds the inverse map of the key sequence |
| Aggregation.MapTilePoints | packages/engine/Source/Scene/GaussianSplatPrimitive.js:4074-4078 | One tile's point loop extends the map by that tile's keys at consecutive aggregate indices |
| Aggregation.CopyAt | packages/engine/Source/Scene/GaussianSplatPrimitive.js:4149 | Typed-array set at an offset, for a source that fits: only the target window changes, and it now holds the source |
| Aggregation.BuildPlyIndicesAggregate | packages/engine/Source/Scene/GaussianSplatPrimitive.js:4137-4168 | The filled array is AggregatePly: a tile with exact PLY indices contributes them modulo 2^32 at its offset; any other tile contributes offset + i |
| Aggregation.NoFailureMeansFit | packages/engine/Source/Scene/GaussianSplatPrimitive.js:4179-4205 | Writing the buffers throws nothing exactly when every buffer is present and together they fit |
| Aggregation.AppendBuffers | packages/engine/Source/Scene/GaussianSplatPrimitive.js:4185-4203 | The tile loop throws the first set's exception (TypeError for a missing buffer, RangeError for overflow); otherwise the buffers are laid end to end and the tail stays zero |
| Aggregation.AggregateBuffers | packages/engine/Source/Scene/GaussianSplatPrimitive.js:4179-4205 | aggregateAttributeValues builds a zero-filled array of totalElements times the components, filled as above |
| Aggregation.Filled | packages/engine/Source/Scene/GaussianSplatPrimitive.js:4179-4205 | The result is an exception exactly when a set throws, and otherwise an array of the requested size |
| Aggregation.ExactBuffersFill | packages/engine/Source/Scene/GaussianSplatPrimitive.js:4179-4205 | Buffers with exactly the per-point component count fill the array exactly and never throw |
| Aggregation.AggregateShData | packages/engine/Source/Scene/GaussianSplatPrimitive.js:4207-4230 | No SH array without SH tiles; otherwise an array sized by the first SH tile's degree, filled from the SH tiles only, or the exception of the set that throws |
| Aggregation.ShFilled | packages/engine/Source/Scene/GaussianSplatPrimitive.js:4207-4230 | No SH tiles gives no array; otherwise it succeeds exactly when the SH buffers fit, with an array of the computed size |
| Aggregation.Assemble | packages/engine/Source/Scene/GaussianSplatPrimitive.js:4232-4261 | The stages are chained in order: an array is stored only when every earlier stage succeeded; there is no failure exactly when all five succeed |
| Aggregation.AggregateAttributes | packages/engine/Source/Scene/GaussianSplatPrimitive.js:4232-4261 | Without a failure all four attribute arrays exist, and SH data exists iff a tile has spherical harmonics. Positions and scales hold 3 values per splat, rotations 4, and colours the first tile's component count. Each array exists only if the earlier ones do |
| Aggregation.AggregateValues | packages/engine/Source/Scene/GaussianSplatPrimitive.js:4232-4261 | The aggregation block's method builds the arrays in order and stops at the first set that throws |
| Aggregation.ExactTilesAggregate | packages/engine/Source/Scene/GaussianSplatPrimitive.js:4179-4261 | Well-formed tiles without spherical harmonics aggregate without failure, and every attribute array is the tile buffers concatenated in selection order |
| Aggregation.BuildPlyIndices | packages/engine/Source/Scene/GaussianSplatPrimitive.js:4049-4168 | Both PLY-index structures of one re-aggregation: the map built from the raw keys and the array of `Uint32Array` entries |
| SplatPrimitive.GaussianSplatPrimitive.Aggregate | packages/engine/Source/Scene/GaussianSplatPrimitive.js:4029-4272 | The attributes and the failure are those of AggregateAttributes, and both PLY structures are rebuilt. New scales mark the boundary dirty. The texture is due again and the index buffer is dropped. A complete aggregation adopts the splat count, tile count, SH degree and a zeroed state buffer; a failed one leaves no splats and keeps the old tile count and state buffer. The selection sets are untouched |
| SplatPrimitive.GaussianSplatPrimitive.Reaggregate | packages/engine/Source/Scene/GaussianSplatPrimitive.js:4029-4272 | A set that throws becomes update's error and leaves no splats; otherwise the new splat and tile counts are adopted |
| SplatPrimitive.GaussianSplatPrimitive.Adopt | packages/engine/Source/Scene/GaussianSplatPrimitive.js:4033-4271 | The fields the block leaves, given its results |
| SplatPrimitive.GaussianSplatPrimitive.AdoptPlyIndices | packages/engine/Source/Scene/GaussianSplatPrimitive.js:4050-4168 | The rebuilt map and array are stored |
| SplatPrimitive.GaussianSplatPrimitive.AdoptAttributes | packages/engine/Source/Scene/GaussianSplatPrimitive.js:4232-4261 | The arrays are stored, and stored scales mark the boundary dirty |
| SplatPrimitive.GaussianSplatPrimitive.AdoptSplatCount | packages/engine/Source/Scene/GaussianSplatPrimitive.js:4033-4041 | The counts are reset and the texture is due; only a complete aggregation adopts the new counts and a zeroed state buffer (4262-4271) |
| ColorModifications.Lookup | packages/engine/Source/Scene/GaussianSplatPrimitive.js:3000-3005 | A colour is found exactly when an entry carries that PLY index, and it is that entry's colour |
| ColorModifications.ApplyByPlyIndex | packages/engine/Source/Scene/GaussianSplatPrimitive.js:2993-3025 | Each byte of splat a < numSplats takes the modification's component when a's PLY index is modified (alpha only for RGBA buffers and colours that have one); every other byte is kept |
| ColorModifications.ApplyToSplat | packages/engine/Source/Scene/GaussianSplatPrimitive.js:2995-3024 | One iteration rewrites exactly splat a's bytes |
| ColorModifications.WriteColor | packages/engine/Source/Scene/GaussianSplatPrimitive.js:3010-3022 | R, G and B (and A when applicable) are written at the base as bytes modulo 256; stores out of range are dropped; all else is kept |
| ColorModifications.ApplyByMap | packages/engine/Source/Scene/GaussianSplatPrimitive.js:3036-3051 | Without the aggregate array, each byte takes the colour of the last entry in map order whose aggregate splat covers it, and keeps its value when no entry does |
| ColorModifications.ApplyEntry | packages/engine/Source/Scene/GaussianSplatPrimitive.js:3038-3050 | One entry writes its colour at its mapped splat when that splat is below numSplats |
| ColorModifications.ModifiedColors | packages/engine/Source/Scene/GaussianSplatPrimitive.js:2973-3057 | The colour copy is unchanged without modifications; otherwise it follows the primary path when the aggregate array exists and the map path when it does not |
| ColorModifications.PathsAgree | packages/engine/Source/Scene/GaussianSplatPrimitive.js:2993-3051 | When the map inverts the aggregate array, both paths write the same bytes |
| SplatPrimitive.GaussianSplatPrimitive.GenerateSplatTexture | packages/engine/Source/Scene/GaussianSplatPrimitive.js:2969-3114 | The request carries the attributes, the modified colour copy, the aggregate PLY indices and the splat count; the generation is pending exactly when the generator took the request |
| SplatPrimitive.GaussianSplatPrimitive.OnTextureResolved | packages/engine/Source/Scene/GaussianSplatPrimitive.js:3115-3159 | The texture size is recorded and the texture is current; the index buffer, grown when too small, holds the identity on the splats, and entries beyond them are kept |
| SplatPrimitive.GaussianSplatPrimitive.FillIdentity | packages/engine/Source/Scene/GaussianSplatPrimitive.js:3150-3158 | Entry i holds i for i < n; the rest is kept |
| SplatPrimitive.GaussianSplatPrimitive.OnTextureRejected | packages/engine/Source/Scene/GaussianSplatPrimitive.js:3160-3163 | The generation is no longer pending |
| SplatPrimitive.GaussianSplatPrimitive.SubmitSort | packages/engine/Source/Scene/GaussianSplatPrimitive.js:4343-4352 | A promise is held and exactly one sort is in flight |
| SplatPrimitive.GaussianSplatPrimitive.OnSortResolved | packages/engine/Source/Scene/GaussianSplatPrimitive.js:4353-4358 | The sorted order becomes the index buffer and the state SORTED; nothing is in flight; the scheduler invariant holds |
| SplatPrimitive.GaussianSplatPrimitive.OnSortRejected | packages/engine/Source/Scene/GaussianSplatPrimitive.js:4359-4362 | The state becomes ERROR with the reason stored; the invariant holds |
| SplatPrimitive.GaussianSplatPrimitive.ScheduleSort | packages/engine/Source/Scene/GaussianSplatPrimitive.js:4274-4365 | Nothing without splats. The texture is requested while it is due, one generation at a time. Over a current texture the state buffer is refreshed and a sort requested only when no promise is held. WAITING follows when no promise is held afterwards |
| SplatPrimitive.GaussianSplatPrimitive.UpdateIdle | packages/engine/Source/Scene/GaussianSplatPrimitive.js:4020-4365 | Not dirty and an unchanged view matrix means nothing happens. A new tile count re-aggregates first. Then the sort is scheduled; the state stays IDLE or becomes WAITING. Only aggregation, texture, state-buffer and sorter fields may change: the selection, locks, colour groups, palette and outline settings are kept |
| SplatPrimitive.GaussianSplatPrimitive.Update | packages/engine/Source/Scene/GaussianSplatPrimitive.js:3951-4404 | Hidden, tile-less and pick frames change nothing; a model-matrix change only marks dirty. IDLE is as above. WAITING moves to SORTING only when the submit is taken, else stays. SORTING waits. SORTED returns to IDLE, clean and without a promise. ERROR throws the stored error. WAITING and SORTED keep the splat count, the index buffer, the state buffer, the positions, the PLY array, the texture flag and the previous view matrix. No branch touches the selection, locks, colour groups, palette or outline settings. At most one sort is ever in flight |
| SplatOutline.GaussianSplatOutline.constructor | packages/engine/Source/Scene/GaussianSplatOutline.js:26-55 | Disabled, nothing selected, no texture or buffer, size 0 x 0; the edge-detection stage starts disabled (268-273) |
| SplatOutline.GaussianSplatOutline.SetEnabled | packages/engine/Source/Scene/GaussianSplatOutline.js:66-76 | Setting the current value changes nothing; otherwise the flag and an existing stage follow the value |
| SplatOutline.CeilSqrt | packages/engine/Source/Scene/GaussianSplatOutline.js:351 | The width is the least w with w * w >= n |
| SplatOutline.StateHeight | packages/engine/Source/Scene/GaussianSplatOutline.js:352 | The height is the least number of rows that holds n splats; it is NaN (None) exactly for width 0 |
| SplatOutline.InitialStates | packages/engine/Source/Scene/GaussianSplatOutline.js:355-362 | The fresh buffer has the layout size; entry i is 1 for i < n and 0 in the padding |
| SplatOutline.StateLayoutFits | packages/engine/Source/Scene/GaussianSplatOutline.js:351-356 | width * height >= n, and for n > 0 the padding is less than one row |
| SplatOutline.GaussianSplatOutline.SelectedStates | packages/engine/Source/Scene/GaussianSplatOutline.js:355-362 | The fill loop produces that layout in a fresh buffer |
| SplatOutline.GaussianSplatOutline.InitializeStateTexture | packages/engine/Source/Scene/GaussianSplatOutline.js:347-408 | The width and height follow the square layout and a fresh buffer marks every splat selected. The texture is the old one, refilled, when its size matches, and a new one otherwise; it holds the buffer's bytes |
| SplatOutline.GaussianSplatOutline.SelectTileset | packages/engine/Source/Scene/GaussianSplatOutline.js:280-312 | Without a tileset or a primitive nothing changes. Otherwise the tileset is selected, the layout is built, the primitive shares the same texture object and its size, and the outline is enabled. The edge stage exists afterwards exactly when it did before. Of the primitive, only the texture and its width and height may change |
| SplatOutline.GaussianSplatOutline.DeselectTileset | packages/engine/Source/Scene/GaussianSplatOutline.js:318-337 | The selected primitive, if any, drops the texture and its mode becomes false, and none of its other fields may change; nothing is selected and the outline is disabled; the outline's own buffer, texture and size are kept; the edge stage keeps existing or not, and is left alone when the outline was already disabled |
| SplatOutline.WithSelected | packages/engine/Source/Scene/GaussianSplatOutline.js:425-431 | Bit 0 becomes the flag and the lock and group bits are kept |
| SplatOutline.SelectDeselect | packages/engine/Source/Scene/GaussianSplatOutline.js:425-431 | Deselecting after selecting equals deselecting, and the reverse; selecting a selected entry leaves it as it is |
| SplatOutline.GaussianSplatOutline.UpdateSplatState | packages/engine/Source/Scene/GaussianSplatOutline.js:416-441 | Without a buffer nothing changes. An in-range entry has bit 0 set or cleared, and every other entry and bit is kept. A store out of range is dropped. The texture is re-uploaded with the buffer's bytes and keeps its width and height |
| StateTexture.Texture.constructor | packages/engine/Source/Scene/GaussianSplatOutline.js:397-406 | A new texture has the given size and a copy of the source bytes |
| StateTexture.Texture.CopyFrom | packages/engine/Source/Scene/GaussianSplatOutline.js:385-389 | The upload replaces the contents and keeps the size |
| TextureWorker.Int32 | packages/engine/Source/Workers/gaussianSplatTextureGenerator.js:80-81 | The 32-bit two's-complement value is congruent to the input modulo 2^32 |
| TextureWorker.TexelX | packages/engine/Source/Workers/gaussianSplatTextureGenerator.js:80 | The column is even and at most 2046 |
| TextureWorker.SmallIndexLayout | packages/engine/Source/Workers/gaussianSplatTextureGenerator.js:80-81 | Below 2^31 the row is i / 1024 and the column is 2 * (i mod 1024) |
| TextureWorker.InjectPlyIndices | packages/engine/Source/Workers/gaussianSplatTextureGenerator.js:65-122 | Without PLY indices, or with the wrong count, the data is exactly the generator's output. Otherwise each word holds the PLY index (mod 2^32) of the last splat that targets it, or the generator's word. Width and height are kept |
| TextureWorker.HandleRequest | packages/engine/Source/Workers/gaussianSplatTextureGenerator.js:7-21 | A WebAssembly configuration is an initialisation, which succeeds iff a binary is given; any other request returns the injected texture with the generator's width and height |
| TextureWorker.PlyIndexReadBack | packages/engine/Source/Workers/gaussianSplatTextureGenerator.js:78-89 | With rows of at least 2047 texels (four words each), word (floor(i/1024) * width + 2 * (i mod 1024)) * 4 + 3 holds splat i's PLY index |
| TextureWorker.DataIndexInjective | packages/engine/Source/Workers/gaussianSplatTextureGenerator.js:80-85 | With rows that wide, distinct splats target distinct words |
| TextureWorker.UntargetedWordKept | packages/engine/Source/Workers/gaussianSplatTextureGenerator.js:78-90 | A word that is no splat's target keeps the generator's value |
| TextureWorker.NarrowRowsCollide | packages/engine/Source/Workers/gaussianSplatTextureGenerator.js:80-89 | With rows of 1024 texels, splats 512 and 1024 target the same word, so the later one wins |

## Left out

- Rendering is not modelled. This covers textures, framebuffers, vertex arrays, draw and clear commands, shaders and the outline composite. Only each buffer and texture's CPU-side contents and size are modelled, along with flags such as `hasBoundaryVertexArray`.
- Console logging, including the valid/invalid counts of the mutation setters, is left out. The setters return nothing.
- The pick pass and `pickId`, the spherical-harmonics texture packing, `transformTile`, and the `tileset.update` wrapper are left out. These are matrix and float numerics, `ContextLimits` and event plumbing.
- The other outline setters and accessors of the primitive are left out: selection-outline enable, colour, minimum alpha difference, depth test, debug modes, and `getOutlineBoundaryStats`. This is the same for the outline post-process's colour, cutoff and fill accessors, `renderOutlinePass`, `update`, `destroy` and `_createEdgeDetectionStage` beyond the stage's initial `enabled = false`.
- `applyCustomColorFilters`, `clampByte` and `assignArrayColor` are left out. They are user callbacks with float rounding.
- The `_tilePlyIndexOffsets` diagnostic records built during aggregation are left out: no modelled operation reads them.
- `SplatPrimitive.GaussianSplatPrimitive.GetSplatInfo`: the projection to screen and world distances is an input, so the model does not compute distances itself. Only the choice over given candidates is modelled.
- `Boundary.ComputeBoundaryIndices`: positions, scales and cutoffs are mathematical reals. IEEE behaviour is not modelled: `isFinite`, `|| 0.0` on NaN, and rounding in the cell-coordinate division.
- `Boundary.ComputeBoundaryIndices`: the boundary result is a set. The order of the source's `Uint32Array` follows map iteration and is not captured.
- `SplatOutline.CeilSqrt`: `Math.ceil(Math.sqrt(n))` is computed exactly on integers. A floating-point rounding of the square root is not modelled.
- `Aggregation.AggregateAttributes`: when a later stage throws, the source has already assigned the arrays of the earlier stages. A partially filled SH array is also kept. The model stores the earlier arrays but leaves the SH data absent when its `set` throws.
- `SplatPrimitive.GaussianSplatPrimitive.Update`: a re-aggregation is stated by its outcome: the counts, and an error with no splats.
- `SplatPrimitive.GaussianSplatPrimitive.Update`: the model states no invariant tying the state buffer to the edit state across frames.
- `SplatPrimitive.GaussianSplatPrimitive.OnTextureResolved`: two generations can be in flight after a re-aggregation, and both resolve. The model counts them but does not say which texture wins.
- `Aggregation.TilePlyStartIndex`: the header's start is returned whatever its type, while the model takes it to be a whole number.
- `SplatPrimitive.GaussianSplatPrimitive.Update`: the outline queue step `_queueOutlineCommands` (GaussianSplatPrimitive.js:4003-4008) runs before the model-matrix check. In "rings" mode with a dirty boundary, or without a ring command or vertex array, it rebuilds the ring command and so recomputes the boundary indices, the statistics and the dirty flag. The model leaves that step out, so `Update`'s frames that change nothing (a SORTING frame, an IDLE frame that is not dirty) do not show that recompute.
- `SplatOutline.GaussianSplatOutline.DeselectTileset`: resetting the primitive's draw command is left out, because draw commands are not modelled.
- `SplatOutline.GaussianSplatOutline.InitializeStateTexture`: creating a zero-size texture for zero splats is modelled as any other texture. The renderer's validation of a zero size is not modelled.
- The texture generator's `TaskProcessor` wrapper and the WebAssembly generator are left out. The generator's output is an input to `TextureWorker.HandleRequest`.
- The radix-sort service and promise scheduling are left out. They are the events `SubmitSort`, `OnSortResolved` and `OnSortRejected`.

### Notes on the code as written

The model follows the code in each of these cases:

- **Single-splat selection.** A single selected splat is its own boundary, with the fallback off, whenever the coverage threshold is positive (`Boundary.SingleSplatSelection`). The fallback to the whole selection is taken only when no cell is below the threshold.
- **Outline width.** The JSDoc of `setOutlineWidth` (GaussianSplatPrimitive.js:2119-2121) says the width is clamped to at least 0.5. The code raises it to at least 0.1, and the model follows the code (`OutlineParameters.WidthSetting`).
- **Re-aggregation trigger.** Re-aggregation is keyed on the number of selected tiles only (4030-4032). A different selection of the same size is not re-aggregated.
- **PLY-index fallback.** Without PLY indices, the inverse map and the aggregate array use different fallbacks (`Aggregation.FallbackKeysDisagree`): the map counts from the tile's PLY start, the array from the aggregate offset.
- **PLY indices outside 32 unsigned bits.** The map is keyed on the raw PLY index while the `Uint32Array` stores it modulo 2^32, so such an index cannot be looked up from the array (`Aggregation.WrappedPlyIndexLost`).
- **Attribute buffer lengths.** Aggregation does not check tile buffer lengths against the point count. Only a buffer that overflows the aggregate array throws; shorter buffers leave zeros behind (`Aggregation.AppendBuffers`).
