/** Chunk bookkeeping (src/tile_map.rs): which map chunks exist around the
    camera. One chunk is one 2446 x 2446 world-unit tile; chunk (x, y) sits at
    world position (2446 x, 2446 y).

    The engine side (entities, tile storage, textures) is not modelled. The
    fetch-and-spawn of one chunk (`get_ofm_data` followed by `spawn_chunk`) is
    recorded in the ghost log `dispatched`; entities removed by the despawn
    step are recorded, by their translation, in the ghost log `despawned`. */
module TileMap {
  import opened Numeric

  /** Bevy's `Vec2`, over the reals. */
  datatype Vec2 = Vec2(x: real, y: real)

  /** Bevy's `Vec3`, over the reals. */
  datatype Vec3 = Vec3(x: real, y: real, z: real)

  /** Bevy's `IVec2`: a chunk position. */
  datatype IVec2 = IVec2(x: int, y: int)

  /** `TILE_SIZE.x == TILE_SIZE.y`, in world units. */
  const TileSize: real := 2446.0

  /** `CHUNK_SIZE.x == CHUNK_SIZE.y`: one tile per chunk. */
  const ChunkTiles: real := 1.0

  /** World units per chunk on each axis, `CHUNK_SIZE * TILE_SIZE`. */
  const ChunkExtent: real := ChunkTiles * TileSize

  /** `range` in `spawn_chunks_around_camera`. */
  const SpawnRange: int := 1

  /** `threshold` in `despawn_outofrange_chunks`. */
  const DespawnThreshold: real := 1000.0

  predicate InI32(v: int): (b: bool)
  {
    -0x8000_0000 <= v < 0x8000_0000
  }

  predicate IsI32Pos(c: IVec2): (b: bool)
  {
    InI32(c.x) && InI32(c.y)
  }

  /** `camera_pos_to_chunk_pos`: `floor(p / 2446)` on each axis, then the
      saturating float-to-`i32` cast of `as_ivec2`. */
  function CameraPosToChunkPos(p: Vec2): (c: IVec2)
    ensures IsI32Pos(c)
  {
    IVec2(SaturateI32((p.x / ChunkExtent).Floor), SaturateI32((p.y / ChunkExtent).Floor))
  }

  /** `chunk_pos_to_world_pos`: the world position of a chunk's corner. */
  function ChunkPosToWorldPos(c: IVec2): (r: Vec2)
  {
    Vec2(c.x as real * ChunkExtent, c.y as real * ChunkExtent)
  }

  /** The translation `spawn_chunk` gives a chunk's tilemap entity:
      `chunk_pos * CHUNK_SIZE * TILE_SIZE`, at depth 0. */
  function SpawnChunkTranslation(c: IVec2): (r: Vec3)
  {
    Vec3(c.x as real * ChunkTiles * TileSize, c.y as real * ChunkTiles * TileSize, 0.0)
  }

  /** A camera position lies inside the chunk it is mapped to, on each axis:
      2446 c <= p < 2446 (c + 1), whenever the floor needs no saturation. */
  lemma CameraPosInChunk(p: Vec2)
    requires InI32((p.x / ChunkExtent).Floor) && InI32((p.y / ChunkExtent).Floor)
    ensures CameraPosToChunkPos(p).x as real * ChunkExtent <= p.x < (CameraPosToChunkPos(p).x + 1) as real * ChunkExtent
    ensures CameraPosToChunkPos(p).y as real * ChunkExtent <= p.y < (CameraPosToChunkPos(p).y + 1) as real * ChunkExtent
  {
    var cx, cy := (p.x / ChunkExtent).Floor, (p.y / ChunkExtent).Floor;
    assert cx as real <= p.x / ChunkExtent < cx as real + 1.0;
    assert cy as real <= p.y / ChunkExtent < cy as real + 1.0;
  }

  /** A chunk's world position maps back to the same chunk. */
  lemma ChunkRoundTrip(c: IVec2)
    requires IsI32Pos(c)
    ensures CameraPosToChunkPos(ChunkPosToWorldPos(c)) == c
  {
    var w := ChunkPosToWorldPos(c);
    assert w.x / ChunkExtent == c.x as real;
    assert w.y / ChunkExtent == c.y as real;
  }

  /** `spawn_chunk` places a chunk exactly at `chunk_pos_to_world_pos`, so the
      translation of a spawned chunk maps back to that chunk. */
  lemma SpawnTranslationIsWorldPos(c: IVec2)
    requires IsI32Pos(c)
    ensures SpawnChunkTranslation(c).x == ChunkPosToWorldPos(c).x
    ensures SpawnChunkTranslation(c).y == ChunkPosToWorldPos(c).y
    ensures SpawnChunkTranslation(c).z == 0.0
    ensures CameraPosToChunkPos(Vec2(SpawnChunkTranslation(c).x, SpawnChunkTranslation(c).y)) == c
  {
    ChunkRoundTrip(c);
  }

  // ---------------------------------------------------------------------
  // The positions the spawn loop visits

  /** Positions (xlo, y), ..., (xhi, y), in that order. */
  function Row(xlo: int, xhi: int, y: int): (r: seq<IVec2>)
    decreases xhi - xlo + 1
  {
    if xhi < xlo then [] else Row(xlo, xhi - 1, y) + [IVec2(xhi, y)]
  }

  /** The rectangle [xlo, xhi] x [ylo, yhi] in row-major order: y outer, x inner. */
  function Grid(xlo: int, xhi: int, ylo: int, yhi: int): (r: seq<IVec2>)
    decreases yhi - ylo + 1
  {
    if yhi < ylo then [] else Grid(xlo, xhi, ylo, yhi - 1) + Row(xlo, xhi, yhi)
  }

  /** The positions one spawn pass visits around a camera chunk. */
  function Block(center: IVec2): (r: seq<IVec2>)
  {
    Grid(center.x - SpawnRange, center.x + SpawnRange, center.y - SpawnRange, center.y + SpawnRange)
  }

  /** The positions visited for every camera, camera by camera. */
  function Visits(cameras: seq<Vec2>): (r: seq<IVec2>)
  {
    if cameras == [] then []
    else Visits(cameras[..|cameras| - 1]) + Block(CameraPosToChunkPos(cameras[|cameras| - 1]))
  }

  /** The set of positions in s. */
  function Elems(s: seq<IVec2>): (r: set<IVec2>)
  {
    if s == [] then {} else Elems(s[..|s| - 1]) + {s[|s| - 1]}
  }

  predicate NoDuplicates(s: seq<IVec2>): (b: bool)
  {
    forall i, j :: 0 <= i < j < |s| ==> s[i] != s[j]
  }

  /** The chunks the spawn loop fetches and spawns while visiting `visits` in
      order, starting from the set `spawned`: a visited position is
      dispatched when neither `spawned` nor an earlier visit holds it. */
  function Dispatches(spawned: set<IVec2>, visits: seq<IVec2>): (r: seq<IVec2>)
  {
    if visits == [] then []
    else
      var before, p := visits[..|visits| - 1], visits[|visits| - 1];
      Dispatches(spawned, before) + (if p in spawned + Elems(before) then [] else [p])
  }

  /** The visited positions that are not in `spawned`, in visiting order. */
  function Absent(spawned: set<IVec2>, visits: seq<IVec2>): (r: seq<IVec2>)
  {
    if visits == [] then []
    else
      var p := visits[|visits| - 1];
      Absent(spawned, visits[..|visits| - 1]) + (if p in spawned then [] else [p])
  }

  lemma RowStep(xlo: int, x: int, y: int)
    requires xlo <= x
    ensures Row(xlo, x, y) == Row(xlo, x - 1, y) + [IVec2(x, y)]
  {
  }

  lemma VisitsStep(cameras: seq<Vec2>, i: nat)
    requires i < |cameras|
    ensures Visits(cameras[..i + 1]) == Visits(cameras[..i]) + Block(CameraPosToChunkPos(cameras[i]))
  {
    assert cameras[..i + 1][..i] == cameras[..i];
  }

  lemma TrackStep(spawned0: set<IVec2>, dispatched0: seq<IVec2>, seen: seq<IVec2>, spawned: set<IVec2>, dispatched: seq<IVec2>, p: IVec2)
    requires spawned == spawned0 + Elems(seen)
    requires dispatched == dispatched0 + Dispatches(spawned0, seen)
    ensures spawned + {p} == spawned0 + Elems(seen + [p])
    ensures dispatched + (if p in spawned then [] else [p]) == dispatched0 + Dispatches(spawned0, seen + [p])
  {
    DispatchesStep(spawned0, seen, p);
  }

  lemma TrackAppend(spawned0: set<IVec2>, dispatched0: seq<IVec2>, seen: seq<IVec2>, spawned: set<IVec2>, dispatched: seq<IVec2>, t: seq<IVec2>)
    requires spawned == spawned0 + Elems(seen)
    requires dispatched == dispatched0 + Dispatches(spawned0, seen)
    ensures spawned + Elems(t) == spawned0 + Elems(seen + t)
    ensures dispatched + Dispatches(spawned, t) == dispatched0 + Dispatches(spawned0, seen + t)
  {
    DispatchesAppend(spawned0, seen, t);
    ElemsConcat(seen, t);
  }

  /** One pass of the outer spawn loop keeps the bookkeeping of
      `SpawnRows`: adding row y to what rows ylo to y - 1 left gives what
      rows ylo to y leave. */
  lemma RowsStep(spawned0: set<IVec2>, dispatched0: seq<IVec2>, spawned: set<IVec2>, dispatched: seq<IVec2>,
                 xlo: int, xhi: int, ylo: int, y: int)
    requires ylo <= y
    requires spawned == spawned0 + Elems(Grid(xlo, xhi, ylo, y - 1))
    requires dispatched == dispatched0 + Dispatches(spawned0, Grid(xlo, xhi, ylo, y - 1))
    ensures spawned + Elems(Row(xlo, xhi, y)) == spawned0 + Elems(Grid(xlo, xhi, ylo, y))
    ensures dispatched + Dispatches(spawned, Row(xlo, xhi, y))
            == dispatched0 + Dispatches(spawned0, Grid(xlo, xhi, ylo, y))
  {
    TrackAppend(spawned0, dispatched0, Grid(xlo, xhi, ylo, y - 1), spawned, dispatched, Row(xlo, xhi, y));
    GridStep(xlo, xhi, ylo, y);
  }

  lemma GridStep(xlo: int, xhi: int, ylo: int, y: int)
    requires ylo <= y
    ensures Grid(xlo, xhi, ylo, y) == Grid(xlo, xhi, ylo, y - 1) + Row(xlo, xhi, y)
  {
  }

  lemma {:induction false} RowMembers(xlo: int, xhi: int, y: int, p: IVec2)
    ensures p in Row(xlo, xhi, y) <==> xlo <= p.x <= xhi && p.y == y
    decreases xhi - xlo + 1
  {
    if xlo <= xhi { RowMembers(xlo, xhi - 1, y, p); }
  }

  /** A grid holds exactly the positions of its rectangle. */
  lemma {:induction false} GridMembers(xlo: int, xhi: int, ylo: int, yhi: int, p: IVec2)
    ensures p in Grid(xlo, xhi, ylo, yhi) <==> xlo <= p.x <= xhi && ylo <= p.y <= yhi
    decreases yhi - ylo + 1
  {
    if ylo <= yhi {
      GridMembers(xlo, xhi, ylo, yhi - 1, p);
      RowMembers(xlo, xhi, yhi, p);
    }
  }

  lemma {:induction false} RowNoDuplicates(xlo: int, xhi: int, y: int)
    ensures NoDuplicates(Row(xlo, xhi, y))
    decreases xhi - xlo + 1
  {
    if xlo <= xhi {
      RowNoDuplicates(xlo, xhi - 1, y);
      var r := Row(xlo, xhi - 1, y);
      forall i | 0 <= i < |r| ensures r[i] != IVec2(xhi, y) {
        RowMembers(xlo, xhi - 1, y, r[i]);
      }
    }
  }

  /** A grid visits each of its positions once. */
  lemma {:induction false} GridNoDuplicates(xlo: int, xhi: int, ylo: int, yhi: int)
    ensures NoDuplicates(Grid(xlo, xhi, ylo, yhi))
    decreases yhi - ylo + 1
  {
    if ylo <= yhi {
      GridNoDuplicates(xlo, xhi, ylo, yhi - 1);
      RowNoDuplicates(xlo, xhi, yhi);
      var g, r := Grid(xlo, xhi, ylo, yhi - 1), Row(xlo, xhi, yhi);
      forall i, j | 0 <= i < |g| && 0 <= j < |r| ensures g[i] != r[j] {
        GridMembers(xlo, xhi, ylo, yhi - 1, g[i]);
        RowMembers(xlo, xhi, yhi, r[j]);
      }
    }
  }

  /** The spawn pass visits the 3 x 3 block around the camera chunk, row by
      row from y - 1 to y + 1, each row from x - 1 to x + 1. */
  lemma BlockRowMajor(c: IVec2)
    ensures Block(c) == [
      IVec2(c.x - 1, c.y - 1), IVec2(c.x, c.y - 1), IVec2(c.x + 1, c.y - 1),
      IVec2(c.x - 1, c.y),     IVec2(c.x, c.y),     IVec2(c.x + 1, c.y),
      IVec2(c.x - 1, c.y + 1), IVec2(c.x, c.y + 1), IVec2(c.x + 1, c.y + 1)]
  {
    var xlo, xhi := c.x - 1, c.x + 1;
    forall y ensures Row(xlo, xhi, y) == [IVec2(c.x - 1, y), IVec2(c.x, y), IVec2(c.x + 1, y)] {
      assert Row(xlo, xlo - 1, y) == [];
      assert Row(xlo, xlo, y) == [IVec2(xlo, y)];
      assert Row(xlo, xlo + 1, y) == [IVec2(xlo, y), IVec2(xlo + 1, y)];
    }
    assert Grid(xlo, xhi, c.y - 1, c.y - 2) == [];
    assert Grid(xlo, xhi, c.y - 1, c.y - 1) == Row(xlo, xhi, c.y - 1);
    assert Grid(xlo, xhi, c.y - 1, c.y) == Row(xlo, xhi, c.y - 1) + Row(xlo, xhi, c.y);
  }

  /** The block holds exactly the positions within Chebyshev distance 1 of the
      camera chunk, each once. */
  lemma BlockMembers(c: IVec2, p: IVec2)
    ensures p in Block(c) <==> c.x - 1 <= p.x <= c.x + 1 && c.y - 1 <= p.y <= c.y + 1
    ensures NoDuplicates(Block(c))
    ensures |Block(c)| == 9
  {
    BlockHas(c, p);
    BlockDistinct(c);
    BlockSize(c);
  }

  lemma BlockHas(c: IVec2, p: IVec2)
    ensures p in Block(c) <==> c.x - 1 <= p.x <= c.x + 1 && c.y - 1 <= p.y <= c.y + 1
  {
    GridMembers(c.x - 1, c.x + 1, c.y - 1, c.y + 1, p);
  }

  lemma BlockDistinct(c: IVec2)
    ensures NoDuplicates(Block(c))
  {
    GridNoDuplicates(c.x - 1, c.x + 1, c.y - 1, c.y + 1);
  }

  lemma BlockSize(c: IVec2)
    ensures |Block(c)| == 9
  {
    BlockRowMajor(c);
  }

  lemma {:induction false} ElemsMembers(s: seq<IVec2>, p: IVec2)
    ensures p in Elems(s) <==> p in s
  {
    if s != [] {
      ElemsMembers(s[..|s| - 1], p);
      assert s == s[..|s| - 1] + [s[|s| - 1]];
    }
  }

  lemma ElemsAppend(s: seq<IVec2>, p: IVec2)
    ensures Elems(s + [p]) == Elems(s) + {p}
  {
    assert (s + [p])[..|s|] == s;
  }

  lemma {:induction false} ElemsConcat(s: seq<IVec2>, t: seq<IVec2>)
    ensures Elems(s + t) == Elems(s) + Elems(t)
  {
    if t != [] {
      var init, p := t[..|t| - 1], t[|t| - 1];
      assert s + t == (s + init) + [p];
      ElemsConcat(s, init);
      ElemsAppend(s + init, p);
    } else {
      assert s + t == s;
    }
  }

  /** Visiting a then b dispatches what visiting a dispatches, then what
      visiting b dispatches from the set that a leaves behind: the spawn pass
      for several cameras is the single-camera pass run camera by camera. */
  lemma {:induction false} DispatchesAppend(spawned: set<IVec2>, a: seq<IVec2>, b: seq<IVec2>)
    ensures Dispatches(spawned, a + b) == Dispatches(spawned, a) + Dispatches(spawned + Elems(a), b)
  {
    if b != [] {
      var init, p := b[..|b| - 1], b[|b| - 1];
      assert b == init + [p];
      assert a + b == (a + init) + [p];
      DispatchesAppend(spawned, a, init);
      DispatchesStep(spawned, a + init, p);
      DispatchesStep(spawned + Elems(a), init, p);
      ElemsConcat(a, init);
    } else {
      assert a + b == a;
    }
  }

  /** Visiting one more position extends the dispatches by that position
      exactly when it was neither spawned nor visited before. */
  lemma DispatchesStep(spawned: set<IVec2>, visits: seq<IVec2>, p: IVec2)
    ensures Elems(visits + [p]) == Elems(visits) + {p}
    ensures Dispatches(spawned, visits + [p])
         == Dispatches(spawned, visits) + (if p in spawned + Elems(visits) then [] else [p])
  {
    assert (visits + [p])[..|visits|] == visits;
  }

  /** The set of dispatched chunks is exactly the visited positions that were
      not already spawned; nothing is dispatched twice, and nothing already
      spawned is dispatched. */
  lemma {:induction false} DispatchesExactlyAbsent(spawned: set<IVec2>, visits: seq<IVec2>)
    ensures Elems(Dispatches(spawned, visits)) == Elems(visits) - spawned
    ensures NoDuplicates(Dispatches(spawned, visits))
  {
    if visits != [] {
      var before, p := visits[..|visits| - 1], visits[|visits| - 1];
      assert visits == before + [p];
      DispatchesExactlyAbsent(spawned, before);
      DispatchesStep(spawned, before, p);
      var d := Dispatches(spawned, before);
      if p !in spawned + Elems(before) {
        ElemsAppend(d, p);
        assert p !in Elems(d);
        forall i | 0 <= i < |d| ensures d[i] != p {
          ElemsMembers(d, d[i]);
        }
        assert NoDuplicates(d + [p]);
        assert Elems(d + [p]) == Elems(visits) - spawned;
      } else {
        assert Dispatches(spawned, visits) == d;
        assert Elems(d) == Elems(visits) - spawned;
      }
    }
  }

  /** When the visits hold no repeats, the dispatched chunks are the absent
      positions in visiting order. */
  lemma {:induction false} DispatchesInVisitOrder(spawned: set<IVec2>, visits: seq<IVec2>)
    requires NoDuplicates(visits)
    ensures Dispatches(spawned, visits) == Absent(spawned, visits)
  {
    if visits != [] {
      var before, p := visits[..|visits| - 1], visits[|visits| - 1];
      assert NoDuplicates(before);
      DispatchesInVisitOrder(spawned, before);
      forall k | 0 <= k < |before| ensures before[k] != p {
        assert visits[k] == before[k];
      }
      ElemsMembers(before, p);
    }
  }

  /** Visits already covered by the spawned set dispatch nothing. */
  lemma {:induction false} DispatchesNothingWhenCovered(spawned: set<IVec2>, visits: seq<IVec2>)
    requires Elems(visits) <= spawned
    ensures Dispatches(spawned, visits) == []
  {
    if visits != [] {
      var before := visits[..|visits| - 1];
      assert Elems(before) <= Elems(visits);
      DispatchesNothingWhenCovered(spawned, before);
      assert visits[|visits| - 1] in Elems(visits);
    }
  }

  /** One spawn pass for one camera dispatches the block positions that were
      not spawned, in row-major order, and every position within Chebyshev
      distance 1 of the camera chunk is then spawned. */
  lemma SingleCameraPass(spawned: set<IVec2>, camera: Vec2)
    ensures Visits([camera]) == Block(CameraPosToChunkPos(camera))
    ensures Dispatches(spawned, Visits([camera])) == Absent(spawned, Block(CameraPosToChunkPos(camera)))
    ensures var c := CameraPosToChunkPos(camera);
      forall p: IVec2 :: c.x - 1 <= p.x <= c.x + 1 && c.y - 1 <= p.y <= c.y + 1
        ==> p in spawned + Elems(Visits([camera]))
  {
    var c := CameraPosToChunkPos(camera);
    assert [camera][..0] == [];
    BlockMembers(c, c);
    DispatchesInVisitOrder(spawned, Block(c));
    forall p: IVec2 | c.x - 1 <= p.x <= c.x + 1 && c.y - 1 <= p.y <= c.y + 1
      ensures p in Elems(Block(c))
    {
      BlockMembers(c, p);
      ElemsMembers(Block(c), p);
    }
  }

  /** Running the spawn step again with the same cameras dispatches nothing. */
  lemma SecondPassDispatchesNothing(spawned: set<IVec2>, cameras: seq<Vec2>)
    ensures Dispatches(spawned + Elems(Visits(cameras)), Visits(cameras)) == []
  {
    DispatchesNothingWhenCovered(spawned + Elems(Visits(cameras)), Visits(cameras));
  }

  // ---------------------------------------------------------------------
  // Distances for the despawn step

  /** `a.distance(b) > threshold`, for a non-negative threshold, decided on
      squared lengths (the square root is monotone). */
  predicate DistanceExceeds(a: Vec2, b: Vec2, threshold: real): (far: bool)
  {
    (a.x - b.x) * (a.x - b.x) + (a.y - b.y) * (a.y - b.y) > threshold * threshold
  }

  /** The squared comparison decides `distance > threshold`: for the
      Euclidean distance d (the non-negative root of the squared length),
      the predicate holds exactly when d exceeds the threshold. */
  lemma DistanceExceedsIffFarther(a: Vec2, b: Vec2, threshold: real, d: real)
    requires threshold >= 0.0 && d >= 0.0
    requires d * d == (a.x - b.x) * (a.x - b.x) + (a.y - b.y) * (a.y - b.y)
    ensures DistanceExceeds(a, b, threshold) <==> d > threshold
  {
    if d > threshold {
      assert d * d - threshold * threshold == (d - threshold) * (d + threshold);
      ProductSign(d - threshold, d + threshold);
    } else {
      assert threshold * threshold - d * d == (threshold - d) * (threshold + d);
      ProductSign(threshold - d, threshold + d);
    }
  }

  lemma ProductSign(x: real, y: real)
    requires x >= 0.0 && y >= 0.0
    ensures x * y >= 0.0
    ensures x > 0.0 && y > 0.0 ==> x * y > 0.0
  {
  }

  /** A point is never further than a non-negative threshold from itself. */
  lemma DistanceToSelf(p: Vec2, threshold: real)
    requires threshold >= 0.0
    ensures !DistanceExceeds(p, p, threshold)
  {
  }

  /** The chunk keys the despawn step removes when each camera's distance is
      measured to each chunk entity's own translation, camera by camera. */
  function FarKeys(cameras: seq<Vec2>, chunks: seq<Vec2>): (r: set<IVec2>)
  {
    if cameras == [] then {}
    else FarKeys(cameras[..|cameras| - 1], chunks) + FarKeysOf(cameras[|cameras| - 1], chunks)
  }

  function FarKeysOf(camera: Vec2, chunks: seq<Vec2>): (r: set<IVec2>)
  {
    if chunks == [] then {}
    else
      var t := chunks[|chunks| - 1];
      FarKeysOf(camera, chunks[..|chunks| - 1])
        + (if DistanceExceeds(camera, t, DespawnThreshold) then {CameraPosToChunkPos(t)} else {})
  }

  /** The chunk entities despawned, in loop order (camera outer, entity inner). */
  function FarChunks(cameras: seq<Vec2>, chunks: seq<Vec2>): (r: seq<Vec2>)
  {
    if cameras == [] then []
    else FarChunks(cameras[..|cameras| - 1], chunks) + FarChunksOf(cameras[|cameras| - 1], chunks)
  }

  function FarChunksOf(camera: Vec2, chunks: seq<Vec2>): (r: seq<Vec2>)
  {
    if chunks == [] then []
    else
      var t := chunks[|chunks| - 1];
      FarChunksOf(camera, chunks[..|chunks| - 1])
        + (if DistanceExceeds(camera, t, DespawnThreshold) then [t] else [])
  }

  lemma {:induction false} FarKeysOfMembers(camera: Vec2, chunks: seq<Vec2>, key: IVec2)
    ensures key in FarKeysOf(camera, chunks) <==>
      exists j :: 0 <= j < |chunks| && DistanceExceeds(camera, chunks[j], DespawnThreshold)
                  && CameraPosToChunkPos(chunks[j]) == key
  {
    if chunks != [] {
      var init := chunks[..|chunks| - 1];
      FarKeysOfMembers(camera, init, key);
      if key in FarKeysOf(camera, init) {
        var j :| 0 <= j < |init| && DistanceExceeds(camera, init[j], DespawnThreshold)
                 && CameraPosToChunkPos(init[j]) == key;
        assert chunks[j] == init[j];
      }
      if exists j :: 0 <= j < |chunks| && DistanceExceeds(camera, chunks[j], DespawnThreshold)
                     && CameraPosToChunkPos(chunks[j]) == key {
        var j :| 0 <= j < |chunks| && DistanceExceeds(camera, chunks[j], DespawnThreshold)
                 && CameraPosToChunkPos(chunks[j]) == key;
        if j < |init| { assert init[j] == chunks[j]; }
      }
    }
  }

  /** A key is removed exactly when some camera is further than the threshold
      from some chunk entity whose translation lies in that key's chunk. */
  lemma {:induction false} FarKeysMembers(cameras: seq<Vec2>, chunks: seq<Vec2>, key: IVec2)
    ensures key in FarKeys(cameras, chunks) <==>
      exists i, j :: 0 <= i < |cameras| && 0 <= j < |chunks|
                     && DistanceExceeds(cameras[i], chunks[j], DespawnThreshold)
                     && CameraPosToChunkPos(chunks[j]) == key
  {
    if cameras != [] {
      var init, last := cameras[..|cameras| - 1], cameras[|cameras| - 1];
      FarKeysMembers(init, chunks, key);
      FarKeysOfMembers(last, chunks, key);
      if key in FarKeys(cameras, chunks) {
        if key in FarKeys(init, chunks) {
          var i, j :| 0 <= i < |init| && 0 <= j < |chunks|
                      && DistanceExceeds(init[i], chunks[j], DespawnThreshold)
                      && CameraPosToChunkPos(chunks[j]) == key;
          assert cameras[i] == init[i];
        } else {
          var j :| 0 <= j < |chunks| && DistanceExceeds(last, chunks[j], DespawnThreshold)
                   && CameraPosToChunkPos(chunks[j]) == key;
          assert cameras[|cameras| - 1] == last;
        }
      }
      if exists i, j :: 0 <= i < |cameras| && 0 <= j < |chunks|
                        && DistanceExceeds(cameras[i], chunks[j], DespawnThreshold)
                        && CameraPosToChunkPos(chunks[j]) == key {
        var i, j :| 0 <= i < |cameras| && 0 <= j < |chunks|
                    && DistanceExceeds(cameras[i], chunks[j], DespawnThreshold)
                    && CameraPosToChunkPos(chunks[j]) == key;
        if i < |init| { assert init[i] == cameras[i]; }
      }
    }
  }

  /** With the distance measured to the chunk, a chunk spawned at c that lies
      further than the threshold from some camera loses its own key c. */
  lemma FarChunkLosesItsKey(cameras: seq<Vec2>, chunks: seq<Vec2>, i: nat, j: nat, c: IVec2)
    requires IsI32Pos(c)
    requires i < |cameras| && j < |chunks|
    requires chunks[j] == ChunkPosToWorldPos(c)
    requires DistanceExceeds(cameras[i], chunks[j], DespawnThreshold)
    ensures c in FarKeys(cameras, chunks)
  {
    ChunkRoundTrip(c);
    FarKeysMembers(cameras, chunks, c);
  }

  /** The source measures the camera's distance to itself: for a camera at the
      origin and a chunk five tiles east, the chunk is 12230 units away, the
      distance the code compares is 0, and nothing is removed. */
  lemma DespawnAsWrittenMissesFarChunk()
    ensures DistanceExceeds(Vec2(0.0, 0.0), ChunkPosToWorldPos(IVec2(5, 0)), DespawnThreshold)
    ensures FarKeys([Vec2(0.0, 0.0)], [ChunkPosToWorldPos(IVec2(5, 0))]) == {IVec2(5, 0)}
    ensures !DistanceExceeds(Vec2(0.0, 0.0), Vec2(0.0, 0.0), DespawnThreshold)
  {
    var cam, t := Vec2(0.0, 0.0), ChunkPosToWorldPos(IVec2(5, 0));
    assert t == Vec2(12230.0, 0.0);
    ChunkRoundTrip(IVec2(5, 0));
    assert [cam][..0] == [];
    assert [t][..0] == [];
    assert FarKeysOf(cam, [t]) == {IVec2(5, 0)};
  }

  // ---------------------------------------------------------------------
  // The chunk manager

  /** `ChunkManager`: the set of chunk positions spawned so far and the
      refresh latch. */
  class ChunkManager {
    var spawnedChunks: set<IVec2>
    var refreshChunks: bool
    /** Chunks fetched and spawned, in order. */
    ghost var dispatched: seq<IVec2>
    /** Translations of the chunk entities despawned, in order. */
    ghost var despawned: seq<Vec2>

    /** `ChunkManager::default()`. */
    constructor ()
      ensures spawnedChunks == {} && !refreshChunks
      ensures dispatched == [] && despawned == []
    {
      spawnedChunks := {};
      refreshChunks := false;
      dispatched := [];
      despawned := [];
    }

    /** `handle_keyboard`: pressing U sets the refresh latch; nothing clears it. */
    method HandleKeyboard(uPressed: bool)
      modifies this`refreshChunks
      ensures refreshChunks == (old(refreshChunks) || uPressed)
    {
      if uPressed {
        refreshChunks := true;
      }
    }

    /** Fetch the tile for a chunk and spawn it (`get_ofm_data` and
        `spawn_chunk`). The position must already be reserved. */
    method FetchAndSpawn(chunkPos: IVec2)
      requires chunkPos in spawnedChunks
      modifies this`dispatched
      ensures dispatched == old(dispatched) + [chunkPos]
    {
      dispatched := dispatched + [chunkPos];
    }

    /** The body of the inner loop of `spawn_chunks_around_camera` for one
        position: if it is not spawned yet, reserve it, then fetch and spawn it. */
    method VisitChunk(chunkPos: IVec2)
      modifies this`spawnedChunks, this`dispatched
      ensures spawnedChunks == old(spawnedChunks) + {chunkPos}
      ensures dispatched == old(dispatched) + (if chunkPos in old(spawnedChunks) then [] else [chunkPos])
    {
      if chunkPos !in spawnedChunks {
        spawnedChunks := spawnedChunks + {chunkPos};
        FetchAndSpawn(chunkPos);
      }
    }

    /** The inner loop of `spawn_chunks_around_camera`: row y, from xlo to xhi. */
    method SpawnRow(xlo: int, xhi: int, y: int)
      requires xlo <= xhi + 1
      modifies this`spawnedChunks, this`dispatched
      ensures spawnedChunks == old(spawnedChunks) + Elems(Row(xlo, xhi, y))
      ensures dispatched == old(dispatched) + Dispatches(old(spawnedChunks), Row(xlo, xhi, y))
    {
      ghost var spawned0, dispatched0 := spawnedChunks, dispatched;
      ghost var seen: seq<IVec2> := [];
      for x := xlo to xhi + 1
        invariant seen == Row(xlo, x - 1, y)
        invariant spawnedChunks == spawned0 + Elems(seen)
        invariant dispatched == dispatched0 + Dispatches(spawned0, seen)
      {
        var chunkPos := IVec2(x, y);
        TrackStep(spawned0, dispatched0, seen, spawnedChunks, dispatched, chunkPos);
        VisitChunk(chunkPos);
        RowStep(xlo, x, y);
        seen := seen + [chunkPos];
      }
    }

    /** The outer loop of `spawn_chunks_around_camera` for one camera chunk:
        rows ylo to yhi, each from xlo to xhi. */
    method SpawnRows(xlo: int, xhi: int, ylo: int, yhi: int)
      requires xlo <= xhi + 1 && ylo <= yhi + 1
      modifies this`spawnedChunks, this`dispatched
      ensures spawnedChunks == old(spawnedChunks) + Elems(Grid(xlo, xhi, ylo, yhi))
      ensures dispatched == old(dispatched) + Dispatches(old(spawnedChunks), Grid(xlo, xhi, ylo, yhi))
    {
      ghost var spawned0, dispatched0 := spawnedChunks, dispatched;
      for y := ylo to yhi + 1
        invariant spawnedChunks == spawned0 + Elems(Grid(xlo, xhi, ylo, y - 1))
        invariant dispatched == dispatched0 + Dispatches(spawned0, Grid(xlo, xhi, ylo, y - 1))
      {
        RowsStep(spawned0, dispatched0, spawnedChunks, dispatched, xlo, xhi, ylo, y);
        SpawnRow(xlo, xhi, y);
      }
    }

    /** The two nested loops of `spawn_chunks_around_camera` for one camera
        chunk: rows y - 1 to y + 1, each from x - 1 to x + 1. */
    method SpawnBlock(cameraChunkPos: IVec2)
      modifies this`spawnedChunks, this`dispatched
      ensures spawnedChunks == old(spawnedChunks) + Elems(Block(cameraChunkPos))
      ensures dispatched == old(dispatched) + Dispatches(old(spawnedChunks), Block(cameraChunkPos))
    {
      SpawnRows(cameraChunkPos.x - SpawnRange, cameraChunkPos.x + SpawnRange,
                cameraChunkPos.y - SpawnRange, cameraChunkPos.y + SpawnRange);
    }

    /** `spawn_chunks_around_camera`: for each camera, visit the 3 x 3 block
        around its chunk in row-major order; each position not yet spawned is
        reserved in `spawnedChunks` and then fetched and spawned. */
    method SpawnChunksAroundCamera(cameras: seq<Vec2>)
      modifies this`spawnedChunks, this`dispatched
      ensures spawnedChunks == old(spawnedChunks) + Elems(Visits(cameras))
      ensures dispatched == old(dispatched) + Dispatches(old(spawnedChunks), Visits(cameras))
    {
      ghost var spawned0, dispatched0 := spawnedChunks, dispatched;
      ghost var seen: seq<IVec2> := [];
      for i := 0 to |cameras|
        invariant seen == Visits(cameras[..i])
        invariant spawnedChunks == spawned0 + Elems(seen)
        invariant dispatched == dispatched0 + Dispatches(spawned0, seen)
      {
        var cameraChunkPos := CameraPosToChunkPos(cameras[i]);
        TrackAppend(spawned0, dispatched0, seen, spawnedChunks, dispatched, Block(cameraChunkPos));
        SpawnBlock(cameraChunkPos);
        VisitsStep(cameras, i);
        seen := seen + Block(cameraChunkPos);
      }
      assert cameras[..|cameras|] == cameras;
    }

    /** One step of the despawn loop: if `camera` is further than the
        threshold from `chunkPos`, remove the chunk key of `chunkPos` and
        despawn the entity. */
    method DespawnIfFar(camera: Vec2, chunkPos: Vec2, entity: Vec2)
      modifies this`spawnedChunks, this`despawned
      ensures DistanceExceeds(camera, chunkPos, DespawnThreshold) ==>
        spawnedChunks == old(spawnedChunks) - {CameraPosToChunkPos(chunkPos)}
        && despawned == old(despawned) + [entity]
      ensures !DistanceExceeds(camera, chunkPos, DespawnThreshold) ==>
        spawnedChunks == old(spawnedChunks) && despawned == old(despawned)
    {
      var threshold := DespawnThreshold;
      if DistanceExceeds(camera, chunkPos, threshold) {
        spawnedChunks := spawnedChunks - {CameraPosToChunkPos(chunkPos)};
        despawned := despawned + [entity];
      }
    }

    /** `despawn_outofrange_chunks` as written: `chunk_pos` is read from the
        camera's own transform, so the distance is always 0 and nothing is
        ever removed or despawned. */
    method DespawnOutofrangeChunksAsWritten(cameras: seq<Vec2>, chunks: seq<Vec2>)
      modifies this`spawnedChunks, this`despawned
      ensures spawnedChunks == old(spawnedChunks)
      ensures despawned == old(despawned)
    {
      for i := 0 to |cameras|
        invariant spawnedChunks == old(spawnedChunks)
        invariant despawned == old(despawned)
      {
        for j := 0 to |chunks|
          invariant spawnedChunks == old(spawnedChunks)
          invariant despawned == old(despawned)
        {
          var chunkTransform := chunks[j];
          var chunkPos := cameras[i];
          DistanceToSelf(chunkPos, DespawnThreshold);
          DespawnIfFar(cameras[i], chunkPos, chunkTransform);
        }
      }
    }

    /** `despawn_outofrange_chunks` with the distance measured from each
        camera to each chunk entity's own translation: every chunk entity
        further than the threshold from a camera is despawned and its key
        removed. */
    method DespawnOutofrangeChunks(cameras: seq<Vec2>, chunks: seq<Vec2>)
      modifies this`spawnedChunks, this`despawned
      ensures spawnedChunks == old(spawnedChunks) - FarKeys(cameras, chunks)
      ensures despawned == old(despawned) + FarChunks(cameras, chunks)
    {
      for i := 0 to |cameras|
        invariant spawnedChunks == old(spawnedChunks) - FarKeys(cameras[..i], chunks)
        invariant despawned == old(despawned) + FarChunks(cameras[..i], chunks)
      {
        assert cameras[..i + 1][..i] == cameras[..i];
        ghost var keysBefore := spawnedChunks;
        ghost var logBefore := despawned;
        for j := 0 to |chunks|
          invariant spawnedChunks == keysBefore - FarKeysOf(cameras[i], chunks[..j])
          invariant despawned == logBefore + FarChunksOf(cameras[i], chunks[..j])
        {
          assert chunks[..j + 1][..j] == chunks[..j];
          var chunkTransform := chunks[j];
          DespawnIfFar(cameras[i], chunkTransform, chunkTransform);
        }
        assert chunks[..|chunks|] == chunks;
      }
      assert cameras[..|cameras|] == cameras;
    }
  }
}
