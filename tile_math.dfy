/** Slippy-map tile arithmetic (src/tile.rs): geographic coordinates and the
    OpenStreetMap tile index scheme over Web Mercator (EPSG:3857).

    The longitude axis is linear and is modelled exactly over the reals. The
    latitude axis goes through tan, sec, ln, sinh and atan; those are not
    given a definition here. Each latitude formula takes the transcendental
    part as a function parameter:
      - `mercatorRatio(lat)` stands for ln(tan(lat) + 1 / cos(lat)) / pi,
        with `lat` in degrees (the core of `to_tile_coords`);
      - `inverseRatio(t)` stands for degrees(atan(sinh(pi * t))) (the core of
        `tile_to_coords`).
    Everything around them (the affine scaling, `floor`, the casts) is modelled. */
module TileMath {
  import opened Numeric

  /** `Coord`: latitude and longitude in degrees (f32 in the source). */
  datatype Coord = Coord(lat: real, long: real)

  /** `Coord::new(lat, long)`. */
  function NewCoord(lat: real, long: real): (c: Coord)
  {
    Coord(lat, long)
  }

  /** `Coord::to_vec2`: the pair (lat, long), latitude first; it loses
      nothing, since `Coord::new` rebuilds the coordinate from it. */
  function ToVec2(c: Coord): (v: (real, real))
    ensures NewCoord(v.0, v.1) == c
  {
    (c.lat, c.long)
  }

  /** The number of tiles along each axis at a zoom level, `2_i32.pow(zoom)`,
      which the source only evaluates without overflow for zoom <= 30. */
  function TilesPerAxis(zoom: nat): (n: int)
    requires zoom <= 30
    ensures 1 <= n <= 0x4000_0000
  {
    Pow2FitsI32(zoom);
    Pow2(zoom)
  }

  /** The position of a longitude on the x axis, measured in tiles when
      there are n tiles around the globe: `(long + 180) / 360 * n`. */
  function LongToTiles(long: real, n: real): (r: real)
  {
    (long + 180.0) / 360.0 * n
  }

  /** The real-valued position on the x axis at a zoom level, before `floor`. */
  function TileXReal(long: real, zoom: nat): (r: real)
    requires zoom <= 30
  {
    LongToTiles(long, TilesPerAxis(zoom) as real)
  }

  /** The x component of `Coord::to_tile_coords`:
      `floor((long + 180) / 360 * 2^zoom) as i32 as u32`. */
  function TileX(long: real, zoom: nat): (r: u32)
    requires zoom <= 30
  {
    WrapU32(SaturateI32(TileXReal(long, zoom).Floor))
  }

  /** The y component of `Coord::to_tile_coords`:
      `floor((1 - mercatorRatio(lat)) / 2 * 2^zoom) as i32 as u32`. */
  function TileY(lat: real, zoom: nat, mercatorRatio: real -> real): (r: u32)
    requires zoom <= 30
  {
    WrapU32(SaturateI32(RatioToTiles(mercatorRatio(lat), TilesPerAxis(zoom) as real).Floor))
  }

  /** The position on the y axis, in tiles, of Mercator ratio r, with n tiles
      from north to south: `(1 - r) / 2 * n`. */
  function RatioToTiles(r: real, n: real): (tiles: real)
  {
    (1.0 - r) / 2.0 * n
  }

  /** The Mercator ratio of position t on the y axis: `1 - 2 t / n`. */
  function TilesToRatio(t: real, n: real): (r: real)
    requires n != 0.0
  {
    1.0 - 2.0 * t / n
  }

  /** `Coord::to_tile_coords(zoom)`: the pair (x, y) of tile indices. */
  function ToTileCoords(c: Coord, zoom: nat, mercatorRatio: real -> real): (t: (u32, u32))
    requires zoom <= 30
  {
    (TileX(c.long, zoom), TileY(c.lat, zoom, mercatorRatio))
  }

  /** The longitude computed by `tile_to_coords`: `x / 2^zoom * 360 - 180`. */
  function TileLon(x: i32, zoom: nat): (r: real)
    requires zoom <= 30
  {
    TilesToLong(x as real, TilesPerAxis(zoom) as real)
  }

  /** The longitude of position t on the x axis, with n tiles around the globe. */
  function TilesToLong(t: real, n: real): (r: real)
    requires n != 0.0
  {
    t / n * 360.0 - 180.0
  }

  /** `tile_to_coords(x, y, zoom)`: the north-west corner of tile (x, y),
      built with `Coord::new(lat, lon)`. */
  function TileToCoords(x: i32, y: i32, zoom: nat, inverseRatio: real -> real): (c: Coord)
    requires zoom <= 30
  {
    var n := TilesPerAxis(zoom) as real;
    var lon := TilesToLong(x as real, n);
    var lat := inverseRatio(TilesToRatio(y as real, n));
    NewCoord(lat, lon)
  }

  // ---------------------------------------------------------------------
  // Longitude axis

  /** Before the casts, the x index is `floor((long + 180) / 360 * 2^zoom)`,
      and for a longitude in [-180, 180) it names one of the 2^zoom tiles. */
  lemma TileXInRange(long: real, zoom: nat)
    requires zoom <= 30
    requires -180.0 <= long < 180.0
    ensures TileX(long, zoom) == TileXReal(long, zoom).Floor
    ensures 0 <= TileX(long, zoom) < TilesPerAxis(zoom)
  {
    var n := TilesPerAxis(zoom);
    var m := n as real;
    ScaleBounds(long, m);
    FloorBelow(LongToTiles(long, m), n);
  }

  /** For n > 0 tiles per axis, [-180, 180) is taken onto [0, n). */
  lemma ScaleBounds(long: real, n: real)
    requires n > 0.0
    ensures -180.0 <= long ==> 0.0 <= LongToTiles(long, n)
    ensures long < 180.0 ==> LongToTiles(long, n) < n
    ensures long < -180.0 ==> LongToTiles(long, n) < 0.0
  {
    var f := (long + 180.0) / 360.0;
    if -180.0 <= long { MulMonotone(0.0, f, n); }
    if long < 180.0 { MulStrict(f, 1.0, n); }
    if long < -180.0 { MulStrict(f, 0.0, n); }
  }

  lemma ScaleMonotone(long1: real, long2: real, n: real)
    requires n > 0.0 && long1 <= long2
    ensures LongToTiles(long1, n) <= LongToTiles(long2, n)
  {
    MulMonotone((long1 + 180.0) / 360.0, (long2 + 180.0) / 360.0, n);
  }

  lemma ScaleStrict(long1: real, long2: real, n: real)
    requires n > 0.0 && long1 < long2
    ensures LongToTiles(long1, n) < LongToTiles(long2, n)
  {
    MulStrict((long1 + 180.0) / 360.0, (long2 + 180.0) / 360.0, n);
  }

  lemma FloorBelow(r: real, n: int)
    requires 0.0 <= r < n as real
    ensures 0 <= r.Floor < n
  {
  }

  lemma FloorIs(r: real, k: int)
    requires k as real <= r < k as real + 1.0
    ensures r.Floor == k
  {
  }

  lemma FloorMonotone(a: real, b: real)
    requires a <= b
    ensures a.Floor <= b.Floor
  {
  }

  lemma MulStrict(a: real, b: real, n: real)
    requires a < b && n > 0.0
    ensures a * n < b * n
  {
  }

  lemma MulMonotone(a: real, b: real, n: real)
    requires a <= b && n >= 0.0
    ensures a * n <= b * n
  {
  }

  /** West of -180 degrees the floor is negative and the `as u32` cast wraps
      it to an index of at least 2^31, which is no tile at any zoom <= 30. */
  lemma TileXWrapsWestOfAntimeridian(long: real, zoom: nat)
    requires zoom <= 30
    requires long < -180.0
    ensures TileX(long, zoom) >= 0x8000_0000
    ensures TileX(long, zoom) >= TilesPerAxis(zoom)
  {
    var m := TilesPerAxis(zoom) as real;
    ScaleBounds(long, m);
    FloorMonotone(LongToTiles(long, m), 0.0);
    FloorIs(0.0, 0);
  }

  /** Example: at zoom 0, longitude -181 gives tile x = 4294967295. */
  lemma TileXWrapExample()
    ensures TileX(-181.0, 0) == 0xffff_ffff
  {
    assert TilesPerAxis(0) == 1;
    assert TileXReal(-181.0, 0) == -1.0 / 360.0;
    FloorIs(-1.0 / 360.0, -1);
  }

  /** The x index never decreases as the longitude grows eastward from -180. */
  lemma TileXMonotone(long1: real, long2: real, zoom: nat)
    requires zoom <= 30
    requires -180.0 <= long1 <= long2
    ensures TileX(long1, zoom) <= TileX(long2, zoom)
  {
    var m := TilesPerAxis(zoom) as real;
    var r1, r2 := LongToTiles(long1, m), LongToTiles(long2, m);
    ScaleBounds(long1, m);
    ScaleMonotone(long1, long2, m);
    FloorMonotone(0.0, r1);
    FloorIs(0.0, 0);
    FloorMonotone(r1, r2);
    SaturateI32Monotone(r1.Floor, r2.Floor);
  }

  /** Tile 0 starts at the antimeridian, -180 degrees. */
  lemma TileLonOrigin(zoom: nat)
    requires zoom <= 30
    ensures TileLon(0, zoom) == -180.0
  {
  }

  /** Adjacent tiles start 360 / 2^zoom degrees apart. */
  lemma {:induction false} TileLonStep(x: i32, zoom: nat)
    requires zoom <= 30
    requires x + 1 < 0x8000_0000
    ensures TileLon(x + 1, zoom) - TileLon(x, zoom) == 360.0 / TilesPerAxis(zoom) as real
  {
    TilesToLongStep(x as real, TilesPerAxis(zoom) as real);
    assert (x + 1) as real == x as real + 1.0;
  }

  lemma TilesToLongStep(t: real, n: real)
    requires n > 0.0
    ensures TilesToLong(t + 1.0, n) - TilesToLong(t, n) == 360.0 / n
  {
    assert (t + 1.0) / n == t / n + 1.0 / n;
    assert (t / n + 1.0 / n) * 360.0 == t / n * 360.0 + 360.0 / n;
  }

  /** The position of a longitude on the x axis, in tiles, is exact in the
      reals: scaling by 2^zoom / 360 undoes `tile_to_coords`'s scaling. */
  lemma TileXRealOfTileLon(x: i32, zoom: nat)
    requires zoom <= 30
    ensures TileXReal(TileLon(x, zoom), zoom) == x as real
  {
    LongToTilesInverse(x as real, TilesPerAxis(zoom) as real);
  }

  /** `LongToTiles` undoes `TilesToLong`. */
  lemma LongToTilesInverse(t: real, n: real)
    requires n > 0.0
    ensures LongToTiles(TilesToLong(t, n), n) == t
  {
    calc {
      LongToTiles(TilesToLong(t, n), n);
      (t / n * 360.0 - 180.0 + 180.0) / 360.0 * n;
      (t / n * 360.0) / 360.0 * n;
      t / n * n;
      t;
    }
  }

  /** Round trip on the x axis: the x index of the corner longitude of tile x
      is x again, for every one of the 2^zoom tiles. */
  lemma TileXRoundTrip(x: i32, y: i32, zoom: nat, mercatorRatio: real -> real, inverseRatio: real -> real)
    requires zoom <= 30
    requires 0 <= x < TilesPerAxis(zoom)
    ensures ToTileCoords(TileToCoords(x, y, zoom, inverseRatio), zoom, mercatorRatio).0 == x
  {
    TileXRealOfTileLon(x, zoom);
    FloorIs(x as real, x);
  }

  /** Every longitude from the west edge of tile x up to (not including) the
      west edge of tile x + 1 belongs to tile x. */
  lemma TileXCoversTile(x: i32, long: real, zoom: nat)
    requires zoom <= 30
    requires 0 <= x < TilesPerAxis(zoom)
    requires TileLon(x, zoom) <= long < TileLon(x + 1, zoom)
    ensures TileX(long, zoom) == x
  {
    var n := TilesPerAxis(zoom) as real;
    var lo, hi := TileLon(x, zoom), TileLon(x + 1, zoom);
    TileXRealOfTileLon(x, zoom);
    TileXRealOfTileLon(x + 1, zoom);
    ScaleMonotone(lo, long, n);
    ScaleStrict(long, hi, n);
    FloorIs(TileXReal(long, zoom), x);
  }

  // ---------------------------------------------------------------------
  // Latitude axis, relative to the transcendental functions

  /** Round trip on the y axis: if `inverseRatio` is a right inverse of
      `mercatorRatio` (as atan(sinh(pi t)) and ln(tan + sec) / pi are in exact
      arithmetic), the y index of the corner latitude of tile y is y again. */
  lemma TileYRoundTrip(x: i32, y: i32, zoom: nat, mercatorRatio: real -> real, inverseRatio: real -> real)
    requires zoom <= 30
    requires 0 <= y < TilesPerAxis(zoom)
    requires forall t: real :: mercatorRatio(inverseRatio(t)) == t
    ensures ToTileCoords(TileToCoords(x, y, zoom, inverseRatio), zoom, mercatorRatio).1 == y
  {
    var n := TilesPerAxis(zoom) as real;
    var t := TilesToRatio(y as real, n);
    var c := TileToCoords(x, y, zoom, inverseRatio);
    assert mercatorRatio(c.lat) == t;
    RatioInverse(y as real, n);
    FloorIs(y as real, y);
    assert RatioToTiles(mercatorRatio(c.lat), n).Floor == y;
  }

  /** `RatioToTiles` undoes `TilesToRatio`. */
  lemma RatioInverse(y: real, n: real)
    requires n > 0.0
    ensures RatioToTiles(TilesToRatio(y, n), n) == y
  {
    assert 1.0 - (1.0 - 2.0 * y / n) == 2.0 * y / n;
    assert 2.0 * y / n / 2.0 == y / n;
    assert y / n * n == y;
  }
}
