# A verified model of the Bevy OpenFreeMap viewer's tile core

The viewer shows an OpenFreeMap vector-tile map in a Bevy window. This
project models three parts of it in Dafny and proves properties about them:

- **Tile arithmetic** (`src/tile.rs`): geographic coordinates and slippy-map
  tile indices. `Coord::to_tile_coords` maps a coordinate to a tile. The
  function `tile_to_coords` maps a tile to the coordinate of its north-west
  corner. The longitude axis is modelled exactly over the reals. The latitude
  formulas (tan, sec, ln, sinh, atan) are given as function parameters, and
  everything around them is modelled: the affine scaling, `floor`, the
  saturating `as i32` cast and the wrapping `as u32` cast.
- **Chunk bookkeeping** (`src/tile_map.rs`): the `ChunkManager` resource and
  the systems that maintain it.
  - `spawn_chunks_around_camera` visits the 3 x 3 block of chunks around each
    camera. It reserves each absent chunk in `spawned_chunks`, then fetches
    and spawns it.
  - `despawn_outofrange_chunks` is meant to remove chunks far from a
    camera. As written it removes nothing (see Findings).
  - `handle_keyboard` sets the refresh latch.
  - The coordinate helpers convert between camera positions, chunk
    positions and world positions.
  - The fetch-and-spawn calls are recorded in a ghost log, so the proofs can
    say exactly which chunks were fetched and in which order.
- **Tiles and fetching** (`src/ofm_api.rs`):
  - `tile_width_meters` and `Tile` equality.
  - `display_ofm_tile`, which turns the queue of pending tiles into image
    assets and sprites.
  - `send_ofm_request`: a disk cache (a map from file name to bytes) in
    front of a network. The network is a script of replies. A 429 or a
    failed call is retried; a 200 is cached and returned; any other status
    returns nothing.
  - The path-building part of `ofm_to_image`: every geometry kind's
    `move_to` / `line_to` commands in the shared `PathBuilder`.

Files: `numeric.dfy` (machine-integer casts), `tile_math.dfy`,
`tile_map.dfy`, `ofm_api.dfy`, `ofm_fetch.dfy` and `ofm_path.dfy`.

In the modelled code:
- Spawning uses a radius of 1 chunk.
- Eviction uses a threshold of 1000 world units.
- Tiles are fetched synchronously inside the spawn loop.
- A failed call is retried like a 429.
- There is no zoom controller and no completion queue.

## Model

| member | source | states |
|---|---|---|
| Numeric.Pow2FitsI32 | src/tile.rs:22 | `2_i32.pow(zoom)` stays within `i32` (at most 2^30) for every zoom up to 30 |
| Numeric.SaturateI32 | src/tile.rs:22 | the float-to-`i32` cast of an integral value yields the `i32` nearest to it |
| Numeric.SaturateI32Monotone | src/tile.rs:22 | the saturating cast preserves order |
| Numeric.WrapU32 | src/tile.rs:24 | `i32 as u32` yields the `u32` congruent to the value modulo 2^32: the same 32 bits read as unsigned |
| TileMath.NewCoord | src/tile.rs:10-15 | `Coord::new(lat, long)` builds the coordinate with that latitude and longitude |
| TileMath.ToVec2 | src/tile.rs:10-19 | `to_vec2` gives (lat, long), latitude first, and loses nothing: `Coord::new` of its two halves gives back the coordinate |
| TileMath.TilesPerAxis | src/tile.rs:29 | the number of tiles per axis is between 1 and 2^30 |
| TileMath.TileX | src/tile.rs:22 | the x index: `floor((long + 180) / 360 * 2^zoom)`, then the saturating `as i32` and the wrapping `as u32` casts |
| TileMath.TileY | src/tile.rs:23 | the y index: `floor((1 - ratio(lat)) / 2 * 2^zoom)` with the Mercator ratio as a parameter, then the same casts |
| TileMath.ToTileCoords | src/tile.rs:21-25 | `to_tile_coords(zoom)`: the pair (x index, y index) |
| TileMath.TileLon | src/tile.rs:29-30 | the corner longitude of tile x: `x / 2^zoom * 360 - 180` |
| TileMath.TileToCoords | src/tile.rs:28-34 | `tile_to_coords(x, y, zoom)`: the north-west corner of the tile, built with `Coord::new(lat, lon)`, the inverse Mercator function a parameter |
| TileMath.TileXInRange | src/tile.rs:22-24 | for longitudes in [-180, 180) the casts change nothing and x is one of the 2^zoom tiles |
| TileMath.TileXWrapsWestOfAntimeridian | src/tile.rs:22-24 | west of -180 the negative floor wraps through `as u32` to at least 2^31, which is no valid tile |
| TileMath.TileXWrapExample | src/tile.rs:22-24 | at zoom 0, longitude -181 yields x = 4294967295 |
| TileMath.TileXMonotone | src/tile.rs:22 | from -180 eastwards the x index never decreases |
| TileMath.TileLonOrigin | src/tile.rs:30 | tile 0 begins at -180 degrees |
| TileMath.TileLonStep | src/tile.rs:30 | adjacent tiles begin 360 / 2^zoom degrees apart |
| TileMath.TileXRealOfTileLon | src/tile.rs:28-30 | scaling the corner longitude of tile x gives exactly x |
| TileMath.TileXRoundTrip | src/tile.rs:21-34 | `to_tile_coords(tile_to_coords(x, y))` has x component x for every valid x |
| TileMath.TileXCoversTile | src/tile.rs:22 | every longitude from tile x's west edge up to tile x + 1's west edge maps to tile x |
| TileMath.TileYRoundTrip | src/tile.rs:21-34 | if the inverse Mercator function is a right inverse of the forward one, the y component round-trips for every valid y |
| TileMap.CameraPosToChunkPos | src/tile_map.rs:90-97 | `as_ivec2` saturates, so every chunk position lies in the `i32` range |
| TileMap.ChunkPosToWorldPos | src/tile_map.rs:100-109 | the world position of a chunk's corner: 2446 times the chunk position on each axis |
| TileMap.SpawnChunkTranslation | src/tile_map.rs:69-73 | the translation of a spawned chunk's tilemap: `chunk_pos * CHUNK_SIZE * TILE_SIZE` on each axis, depth 0 |
| TileMap.CameraPosInChunk | src/tile_map.rs:90-97 | without saturation, a camera position lies inside its chunk: 2446 c <= p < 2446 (c + 1) on each axis |
| TileMap.ChunkRoundTrip | src/tile_map.rs:90-109 | `camera_pos_to_chunk_pos(chunk_pos_to_world_pos(c)) == c` |
| TileMap.SpawnTranslationIsWorldPos | src/tile_map.rs:69-73 | `spawn_chunk` places a chunk at its world position at depth 0, and that translation maps back to the chunk |
| TileMap.Row | src/tile_map.rs:123 | the positions the inner `x` loop visits on row y, in increasing x |
| TileMap.Grid | src/tile_map.rs:122-124 | the positions the nested `y` / `x` loops visit: y outer, x inner |
| TileMap.Block | src/tile_map.rs:119-124 | the positions visited around one camera chunk: the grid from chunk - range to chunk + range on each axis, range 1 |
| TileMap.Visits | src/tile_map.rs:118-124 | the positions visited for all cameras: each camera's block in camera order |
| TileMap.Dispatches | src/tile_map.rs:125-138 | the chunks fetched and spawned while visiting positions in order: a position is fetched when neither the initial set nor an earlier visit reserved it |
| TileMap.RowMembers | src/tile_map.rs:123 | the inner loop visits exactly x in [xlo, xhi] of row y |
| TileMap.GridMembers | src/tile_map.rs:122-123 | the nested loops visit exactly the rectangle |
| TileMap.RowNoDuplicates | src/tile_map.rs:123 | a row visits no position twice |
| TileMap.GridNoDuplicates | src/tile_map.rs:122-123 | the nested loops visit no position twice |
| TileMap.BlockRowMajor | src/tile_map.rs:120-124 | with range 1, one camera's visits are the nine positions around its chunk, in row-major order |
| TileMap.BlockMembers | src/tile_map.rs:120-124 | the block is the positions within Chebyshev distance 1 of the camera chunk, nine of them and distinct |
| TileMap.DispatchesAppend | src/tile_map.rs:118-143 | visiting a then b fetches what a fetches, then what b fetches given a's reservations |
| TileMap.DispatchesExactlyAbsent | src/tile_map.rs:125-138 | the fetched chunks are exactly the visited positions not reserved at the start, each fetched once |
| TileMap.DispatchesInVisitOrder | src/tile_map.rs:122-138 | for visits without repeats, the fetched chunks are the absent positions in visit order |
| TileMap.DispatchesNothingWhenCovered | src/tile_map.rs:125 | if every visited position is already reserved, nothing is fetched |
| TileMap.SingleCameraPass | src/tile_map.rs:118-141 | one camera fetches the absent positions of its block in row-major order, and afterwards every position within Chebyshev distance 1 of its chunk is reserved |
| TileMap.SecondPassDispatchesNothing | src/tile_map.rs:111-143 | running the spawn system again for the same cameras fetches nothing |
| TileMap.DistanceExceeds | src/tile_map.rs:155-157 | `distance > threshold`, decided on squared lengths |
| TileMap.DistanceExceedsIffFarther | src/tile_map.rs:155-157 | for the Euclidean distance d (the non-negative root of the squared length) and a non-negative threshold, the squared comparison holds exactly when d > threshold |
| TileMap.DistanceToSelf | src/tile_map.rs:154-157 | a point is never further than the threshold from itself |
| TileMap.FarKeysOf | src/tile_map.rs:153-160 | the keys one camera's pass removes: the chunk key of every entity whose translation is too far from the camera |
| TileMap.FarKeys | src/tile_map.rs:152-160 | the keys the corrected despawn removes: the union of every camera's `FarKeysOf` |
| TileMap.FarChunksOf | src/tile_map.rs:153-161 | the entities one camera's pass despawns, in query order |
| TileMap.FarChunks | src/tile_map.rs:152-161 | the entities the corrected despawn removes, camera outer and entity inner |
| TileMap.FarKeysOfMembers | src/tile_map.rs:153-160 | for one camera, a key is removed exactly when some chunk entity is too far away and maps to that key |
| TileMap.FarKeysMembers | src/tile_map.rs:152-164 | a key is removed exactly when some camera and some chunk entity are too far apart and the entity maps to that key |
| TileMap.FarChunkLosesItsKey | src/tile_map.rs:152-164 | with the corrected distance, a chunk spawned at c that is too far from a camera loses its own key c |
| TileMap.DespawnAsWrittenMissesFarChunk | src/tile_map.rs:154-157 | a chunk 12230 units from the camera is far, but the distance the code compares is 0 |
| TileMap.ChunkManager.constructor | src/tile_map.rs:28-32 | `ChunkManager::default()`: no spawned chunks and the latch cleared |
| TileMap.ChunkManager.HandleKeyboard | src/tile_map.rs:43-45 | pressing U sets the refresh latch; nothing clears it |
| TileMap.ChunkManager.FetchAndSpawn | src/tile_map.rs:136-138 | fetching and spawning a chunk that is already reserved logs it once |
| TileMap.ChunkManager.VisitChunk | src/tile_map.rs:124-139 | after visiting, the position is reserved; it is fetched exactly when it was not reserved before |
| TileMap.ChunkManager.SpawnRow | src/tile_map.rs:123-140 | the inner loop reserves the row and fetches its unreserved positions in order |
| TileMap.ChunkManager.SpawnRows | src/tile_map.rs:122-141 | the nested loops reserve the rectangle and fetch its unreserved positions in row-major order |
| TileMap.ChunkManager.SpawnBlock | src/tile_map.rs:119-141 | one camera reserves its 3 x 3 block and fetches the unreserved positions |
| TileMap.ChunkManager.SpawnChunksAroundCamera | src/tile_map.rs:111-143 | all cameras' blocks are reserved; the fetched chunks are the first visits of unreserved positions, camera by camera |
| TileMap.ChunkManager.DespawnIfFar | src/tile_map.rs:154-162 | beyond the threshold, the key is removed and the entity despawned; otherwise nothing changes |
| TileMap.ChunkManager.DespawnOutofrangeChunksAsWritten | src/tile_map.rs:145-165 | as written, the system removes no key and despawns no entity |
| TileMap.ChunkManager.DespawnOutofrangeChunks | src/tile_map.rs:145-165 | with the distance taken to each chunk's translation, the far keys are removed and the far entities despawned in loop order |
| OfmApi.TileWidthMeters | src/ofm_api.rs:68-72 | the tile width is positive, and 2^zoom tiles span the Earth's circumference exactly |
| OfmApi.TileWidthAtZoomZero | src/ofm_api.rs:68-72 | at zoom 0 a tile is 40075016.686 m wide |
| OfmApi.TileWidthHalves | src/ofm_api.rs:68-72 | each zoom step halves the tile width |
| OfmApi.TileWidthDecreasing | src/ofm_api.rs:68-72 | zooming in never widens a tile |
| OfmApi.TileEq | src/ofm_api.rs:26-30 | `Tile::eq`: name, zoom, latitude and longitude agree; the image is not compared |
| OfmApi.TileEqIsEqualityUpToImage | src/ofm_api.rs:26-30 | two tiles are equal exactly when they differ at most in their image |
| OfmApi.TileEqIsEquivalence | src/ofm_api.rs:26-30 | tile equality is reflexive, symmetric and transitive |
| OfmApi.TileEqIgnoresImage | src/ofm_api.rs:26-30 | replacing a tile's image does not change what it equals |
| OfmApi.SpriteFor | src/ofm_api.rs:81-87 | the sprite spawned for one tile: its image handle, custom size 2080 x 2080 and the projected position at depth 0 |
| OfmApi.SpritesFor | src/ofm_api.rs:79-88 | the sprites spawned for the pending tiles in queue order, the k-th showing handle base + k |
| OfmApi.ImagesOf | src/ofm_api.rs:79-80 | the images `images.add` stores for the pending tiles, in queue order |
| OfmApi.SpritesShowTheirTiles | src/ofm_api.rs:79-87 | one sprite per pending tile, in order; the k-th shows the asset holding the k-th tile's image, is 2080 x 2080 and stands at the projected position |
| OfmApi.OfmTiles.constructor | src/ofm_api.rs:12-16 | the resource starts with the given pending tiles |
| OfmApi.DisplayOfmTile | src/ofm_api.rs:74-90 | images and sprites are appended for every pending tile in order, and the queue is emptied |
| OfmFetch.Decimal | src/ofm_api.rs:100 | `{}` formatting gives a non-empty string of digits without a leading zero |
| OfmFetch.DecimalRoundTrip | src/ofm_api.rs:100 | reading the formatted digits back gives the number |
| OfmFetch.DecimalInjective | src/ofm_api.rs:100 | distinct numbers format differently |
| OfmFetch.TileKeyInjective | src/ofm_api.rs:100 | distinct (zoom, x, y) triples have distinct `{zoom}_{x}_{y}` keys |
| OfmFetch.CacheFileInjective | src/ofm_api.rs:100 | distinct tiles never share a cache file |
| OfmFetch.TileKey | src/ofm_api.rs:100 | the `{zoom}_{x}_{y}` part of the cache file name |
| OfmFetch.CacheFile | src/ofm_api.rs:99-100 | `cache_file`: `cache/{zoom}_{x}_{y}.pbf` |
| OfmFetch.Fetch | src/ofm_api.rs:98-131 | the reference definition of a request: a cached file is returned with no call; otherwise the first reply that is neither a 429 nor a failed call decides; a 200 is cached and returned; another status returns no bytes; with no deciding reply the request is still retrying |
| OfmFetch.FirstDecisive | src/ofm_api.rs:109-129 | the first reply that ends the retry loop: every earlier reply is a 429 or a failed call |
| OfmFetch.SendOfmRequest | src/ofm_api.rs:98-131 | the cache lookup and the retry loop compute exactly the specification `Fetch` |
| OfmFetch.CacheHitMakesNoCalls | src/ofm_api.rs:103-105 | a cached tile is returned from disk with no network call |
| OfmFetch.FetchReturnsTheCachedBytes | src/ofm_api.rs:103-122 | what is returned is what the cache file holds afterwards, unless nothing was returned and no file exists |
| OfmFetch.FetchTouchesOnlyItsFile | src/ofm_api.rs:119-120 | a request changes no file other than its own cache file |
| OfmFetch.FetchLeavesOtherTilesAlone | src/ofm_api.rs:100-120 | a request leaves every other tile's cache entry as it was |
| OfmFetch.SecondRequestIsCacheHit | src/ofm_api.rs:103-122 | repeating a request that left a cache file returns the same bytes with no call |
| OfmFetch.CacheFileWrittenOn200 | src/ofm_api.rs:112-127 | the deciding reply is the last call, and a cache file is written exactly when it is a 200 |
| OfmFetch.OtherStatusReturnsNothing | src/ofm_api.rs:125-130 | a status other than 200 and 429 returns no bytes and leaves the disk unchanged |
| OfmFetch.RetriesAddCalls | src/ofm_api.rs:109-129 | prefixing 429s or failed calls only adds calls; bytes and disk are unchanged |
| OfmFetch.FirstDecisiveAfterRetries | src/ofm_api.rs:109-129 | non-deciding replies in front shift the deciding reply by their number |
| OfmFetch.RateLimitedThreeTimesThenOk | src/ofm_api.rs:109-124 | three 429s then a 200 take four calls, and the body is cached and returned |
| OfmFetch.Ureq2Reply | src/ofm_api.rs:111 | under ureq 2.x, `call()` yields a response only for statuses below 400; anything else is an `Err`, which the loop treats as a failed call |
| OfmFetch.NotFoundUnderUreq2RetriesForever | src/ofm_api.rs:109-129 | as written with ureq 2.x, a tile answered with 404 is requested again after every answer and never returns |
| OfmFetch.NotFoundReturnsNothing | src/ofm_api.rs:125-130 | as intended, a 404 ends the request after one call with no bytes and the disk unchanged |
| OfmFetch.StillRetryingWhenNothingDecides | src/ofm_api.rs:109-129 | the request is still retrying exactly when the tile is not cached and no reply ends the loop |
| OfmPath.PointOps | src/ofm_api.rs:148-154 | a point: a move to the scaled point and lines to (x + 1, y + 1), (x + 1, y) and (x, y + 1) |
| OfmPath.LineOps | src/ofm_api.rs:155-159 | a line: a move to its scaled start and a line to its scaled end |
| OfmPath.Lines | src/ofm_api.rs:162 | `LineString::lines()`: the segments between consecutive points |
| OfmPath.SegmentOps | src/ofm_api.rs:163-169 | one segment: a move (first segment) or a line (later ones) to its start, then a line to its end |
| OfmPath.SegmentsOps | src/ofm_api.rs:162-170 | the segments' commands in order |
| OfmPath.LineStringOps | src/ofm_api.rs:160-171 | a line string: the commands of its segments |
| OfmPath.VertexOps | src/ofm_api.rs:175-181 | one exterior point: a move (first point) or a line to it, then a line to the same point |
| OfmPath.RingOps | src/ofm_api.rs:174-182 | the exterior ring's points' commands in order |
| OfmPath.PolygonOps | src/ofm_api.rs:172-183 | a polygon: the commands of its exterior ring |
| OfmPath.PolygonsOps | src/ofm_api.rs:184-197 | a multi-polygon: each polygon's commands in order |
| OfmPath.PointsOps | src/ofm_api.rs:198-205 | a multi-point: each point's commands in order |
| OfmPath.LineStringsOps | src/ofm_api.rs:206-219 | a multi-line-string: each line string's commands in order |
| OfmPath.GeometryOps | src/ofm_api.rs:147-229 | the commands of one geometry by kind; collections, rectangles and triangles draw nothing |
| OfmPath.FeaturesOps | src/ofm_api.rs:146-230 | a layer's features' commands in order |
| OfmPath.LayerOps | src/ofm_api.rs:145-146 | one layer: the commands of its features from `get_features(i)`, or nothing when that returns `Err` |
| OfmPath.LayersOps | src/ofm_api.rs:143-232 | every readable layer's commands in order; an unreadable layer adds nothing |
| OfmPath.LinesAreConsecutivePairs | src/ofm_api.rs:162 | `lines()` yields the k - 1 segments between consecutive points |
| OfmPath.PointMarksItsCell | src/ofm_api.rs:148-154 | a point is one subpath of four commands through the corners of its one-pixel cell |
| OfmPath.SegmentsShape | src/ofm_api.rs:162-170 | two commands per segment; only the first is a move; each pair runs through the segment's start and end |
| OfmPath.LineStringShape | src/ofm_api.rs:160-171 | a line string of k >= 2 points is one subpath of 2 (k - 1) commands through its points in order; fewer points draw nothing |
| OfmPath.RingShape | src/ofm_api.rs:174-182 | an exterior ring of m points is one subpath of 2 m commands, each point twice in order |
| OfmPath.PolygonIgnoresInteriors | src/ofm_api.rs:172-183 | a polygon draws its exterior ring only; holes are ignored |
| OfmPath.UnsupportedKindsDrawNothing | src/ofm_api.rs:220-228 | collections, rectangles and triangles add no commands |
| OfmPath.RingMoves | src/ofm_api.rs:174-182 | a non-empty ring starts exactly one subpath |
| OfmPath.LineStringMoves | src/ofm_api.rs:160-171 | a line string of two or more points starts exactly one subpath |
| OfmPath.PolygonsMoves | src/ofm_api.rs:184-197 | a multi-polygon starts one subpath per polygon with a non-empty exterior |
| OfmPath.PointsMoves | src/ofm_api.rs:198-205 | a multi-point draws four commands and one subpath per point |
| OfmPath.LineStringsMoves | src/ofm_api.rs:206-219 | a multi-line-string starts one subpath per member of two or more points |
| OfmPath.GeometrySubpaths | src/ofm_api.rs:147-229 | each geometry starts as many subpaths as it has drawable parts, and its commands begin with a move |
| OfmPath.LayersOpsConcat | src/ofm_api.rs:144-146 | layers are drawn in order: the path for a + b is the path for a followed by the path for b |
| OfmPath.FeaturesOpsAppend | src/ofm_api.rs:146-147 | one more feature appends exactly its geometry's commands |
| OfmPath.PathStartsWithMove | src/ofm_api.rs:143-234 | the finished path is empty or begins with a move |
| OfmPath.FeaturesStartWithMove | src/ofm_api.rs:146-229 | a layer's commands are empty or begin with a move |
| OfmPath.PathBuilder.constructor | src/ofm_api.rs:139 | `PathBuilder::new` starts with no commands |
| OfmPath.PathBuilder.MoveTo | src/ofm_api.rs:150 | `move_to` appends one move command to the recorded ones |
| OfmPath.PathBuilder.LineTo | src/ofm_api.rs:151 | `line_to` appends one line command to the recorded ones |
| OfmPath.PathBuilder.Finish | src/ofm_api.rs:234 | `finish` yields the recorded commands |
| OfmPath.DrawPoint | src/ofm_api.rs:148-154 | the point arm appends the point's four commands |
| OfmPath.DrawLineString | src/ofm_api.rs:160-171 | the line-string loop appends the segment commands, the first as a move |
| OfmPath.DrawExterior | src/ofm_api.rs:172-183 | the polygon loop appends the exterior ring's commands |
| OfmPath.DrawPolygons | src/ofm_api.rs:184-197 | the multi-polygon loop appends each polygon's exterior in order |
| OfmPath.DrawPoints | src/ofm_api.rs:198-205 | the multi-point loop appends each point's commands in order |
| OfmPath.DrawLineStrings | src/ofm_api.rs:206-219 | the multi-line-string loop appends each line string's commands in order |
| OfmPath.DrawGeometry | src/ofm_api.rs:147-229 | the `match` appends the commands of the feature's geometry kind |
| OfmPath.DrawFeature | src/ofm_api.rs:146-229 | drawing one more feature extends the layer's commands by that feature |
| OfmPath.DrawFeatures | src/ofm_api.rs:146-230 | the feature loop appends the commands of every feature in order |
| OfmPath.OfmToPath | src/ofm_api.rs:134-234 | the layer and feature loops followed by `finish` yield the path of all layers in order |

## Left out

- HTTP, the file system and the five-second sleep are not modelled. The network is a script of replies and the disk is a map. The request URL is not modelled; only the cache file name is.
- OfmFetch.SendOfmRequest: the source loops forever when no reply ends the retry loop. On a finite script the model stops and reports `StillRetrying`.
- The source reads a cached file and writes a new one through `expect`, which panics on an I/O error. The model has no I/O errors.
- OfmFetch.SendOfmRequest: the loop is modelled with the status of every response visible, as its 200 / 429 / other branches intend. Under ureq 2.x, statuses of 400 and above arrive as failed calls instead; that reading is `Ureq2Reply`, and the resulting endless retry is under Findings.
- `get_ofm_data` is not modelled. It only feeds `send_ofm_request`'s bytes to `ofm_to_image`, and both are modelled separately.
- In `ofm_to_image`, decoding the tile bytes (`mvt_reader`), stroking the path into pixels (`raqote`) and building the Bevy `Image` are not modelled. The path model starts from decoded layers, and an unreadable layer draws nothing. The `unwrap` panic on an undecodable tile is left out.
- The transcendental functions (tan, sec, ln, sinh, atan) are left out. The latitude formulas take them as function parameters.
- `world_mercator_to_lat_lon`, `geo_to_tile` and `level_to_tile_width` are not part of this model. They are defined outside the modelled files. The display system takes the projection as a parameter, and the chunk system records the fetched chunk position rather than the tile key.
- `OfmTiles.tiles` (the R-tree) and `Tile`'s envelope are not part of this model.
- Floating point is modelled as exact reals. f32 and f64 rounding, infinities and NaN are not captured.
- OfmApi.TileEqIsEquivalence: NaN coordinates would make f32 equality irreflexive; over the reals the relation is an equivalence.
- TileMath.TilesPerAxis: `2_i32.pow(zoom)` overflows from zoom 31 on. The model requires zoom <= 30 and does not capture the overflow.
- OfmApi.TileWidthMeters: `2_u32.pow(zoom)` overflows from zoom 32 on. The model requires zoom < 32.
- TileMap.ChunkManager.SpawnChunksAroundCamera: chunk positions are unbounded integers. The `i32` overflow of `camera_chunk_pos ± range` at the edges of the range is not captured.
- Bevy's ECS is not modelled: entities, commands, tile storage, textures, queries and the plugin wiring. Cameras and chunk entities are inputs given as sequences of translations. A despawned entity is recorded by its translation.
- TileMap.ChunkManager.HandleKeyboard: the window and camera queries are left out. The source reads them and discards the results. `query.single()` and `primary_window_query.single()` panic unless there is exactly one `Camera2d` and one primary window; that panic is not modelled.
- The `println!` logging of `GeometryCollection`, `Rect` and `Triangle` values (src/ofm_api.rs:220-228) is not modelled. The model only captures that these kinds draw nothing.
- `refresh_chunks` is set but never read by any modelled system. The model keeps the latch and nothing more.

## Findings

| source | as written | input that shows it | evidently intended | confidence | as-written member | corrected member |
|---|---|---|---|---|---|---|
| src/tile_map.rs:154-155 | `chunk_pos` is the camera's own translation, so `distance` is always 0 and no chunk is ever despawned or unreserved | one camera at (0, 0) and a chunk spawned at chunk (5, 0), i.e. 12230 units east: the chunk is far, but nothing is removed | measure the distance from the camera to the chunk entity's translation and remove that chunk's key | high; not executed | TileMap.ChunkManager.DespawnOutofrangeChunksAsWritten, TileMap.DespawnAsWrittenMissesFarChunk | TileMap.ChunkManager.DespawnOutofrangeChunks, TileMap.FarChunkLosesItsKey |
| src/ofm_api.rs:111-127 | with ureq 2.x (the version with `into_reader`), `call()` returns `Err` for every status of 400 or more, so `if let Ok(response)` skips the 429 and "other status" branches: a 429 is retried at once without the five-second sleep, and a 404 or 500 is retried forever | a tile the server answers with 404: every call yields `Err`, `status` stays 429, and the request never returns | match the error statuses too: sleep and retry on 429, return no bytes on any other status | medium; the library version is inferred from its API; not executed | OfmFetch.Ureq2Reply, OfmFetch.NotFoundUnderUreq2RetriesForever | OfmFetch.Fetch, OfmFetch.NotFoundReturnsNothing, OfmFetch.OtherStatusReturnsNothing |
