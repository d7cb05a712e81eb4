/** Tiles as the viewer stores and shows them (src/ofm_api.rs): the tile
    width at a zoom level, equality of `Tile` values, and the system that
    turns the queue of pending tiles into sprites.

    `Image` is the RGBA pixel data only. Bevy's asset store is the sequence
    `images` (a handle is an index into it) and the entities spawned through
    `Commands` are the sequence `sprites`. The conversion from the tile's
    stored coordinates to a world position (`world_mercator_to_lat_lon` with
    the fixed map origin) is not defined in the files modelled here, so the
    display system takes it as the function parameter `project`. */
module OfmApi {
  import opened Numeric
  import opened TileMath

  /** The equatorial circumference used by `tile_width_meters`, in metres. */
  const EarthCircumferenceMeters: real := 40075016.686

  /** `tile_width_meters(zoom)`: the circumference divided by 2^zoom.
      `2_u32.pow(zoom)` overflows from zoom 32 on, hence the precondition. */
  function TileWidthMeters(zoom: nat): (w: real)
    requires zoom < 32
    ensures w > 0.0
    ensures w * Pow2(zoom) as real == EarthCircumferenceMeters
  {
    EarthCircumferenceMeters / Pow2(zoom) as real
  }

  /** At zoom 0 one tile spans the whole circumference. */
  lemma TileWidthAtZoomZero()
    ensures TileWidthMeters(0) == 40075016.686
  {
  }

  /** Each zoom step halves the tile width. */
  lemma TileWidthHalves(zoom: nat)
    requires zoom + 1 < 32
    ensures TileWidthMeters(zoom + 1) == TileWidthMeters(zoom) / 2.0
  {
    var n := Pow2(zoom) as real;
    assert Pow2(zoom + 1) as real == 2.0 * n;
    HalfOfQuotient(EarthCircumferenceMeters, n);
  }

  lemma HalfOfQuotient(c: real, n: real)
    requires n > 0.0
    ensures c / (2.0 * n) == c / n / 2.0
  {
  }

  /** Zooming in never widens a tile. */
  lemma {:induction false} TileWidthDecreasing(zoom: nat, zoom': nat)
    requires zoom <= zoom' < 32
    ensures TileWidthMeters(zoom') <= TileWidthMeters(zoom)
    decreases zoom' - zoom
  {
    if zoom < zoom' {
      TileWidthDecreasing(zoom, zoom' - 1);
      TileWidthHalves(zoom' - 1);
    }
  }

  // ---------------------------------------------------------------------
  // Tiles

  /** The RGBA8 pixel data of a rendered tile. */
  type Image = seq<byte>

  /** `Tile`: a rendered map tile and where it belongs. */
  datatype Tile = Tile(name: string, image: Image, tileLocation: Coord, zoom: i32)

  /** `impl PartialEq for Tile`: name, zoom and both coordinates agree; the
      image is not compared. */
  predicate TileEq(a: Tile, b: Tile): (same: bool)
  {
    a.name == b.name && a.zoom == b.zoom
      && a.tileLocation.lat == b.tileLocation.lat && a.tileLocation.long == b.tileLocation.long
  }

  /** Two tiles are equal exactly when they differ in nothing but the image. */
  lemma TileEqIsEqualityUpToImage(a: Tile, b: Tile)
    ensures TileEq(a, b) <==> a.(image := b.image) == b
  {
  }

  /** Tile equality is an equivalence relation (over exact coordinates). */
  lemma TileEqIsEquivalence(a: Tile, b: Tile, c: Tile)
    ensures TileEq(a, a)
    ensures TileEq(a, b) ==> TileEq(b, a)
    ensures TileEq(a, b) && TileEq(b, c) ==> TileEq(a, c)
  {
  }

  /** Replacing the image never changes what a tile equals. */
  lemma TileEqIgnoresImage(a: Tile, b: Tile, img: Image)
    ensures TileEq(a.(image := img), b) <==> TileEq(a, b)
  {
  }

  // ---------------------------------------------------------------------
  // Displaying pending tiles

  /** The side of a tile sprite, `custom_size`, in world units. */
  const SpriteSide: real := 2080.0

  /** A spawned sprite entity: the asset handle of its image, its custom
      size and its translation. */
  datatype Sprite = Sprite(handle: nat, customSize: (real, real), translation: (real, real, real))

  /** The sprite spawned for the tile whose image was stored under `handle`. */
  function SpriteFor(t: Tile, handle: nat, project: (real, real) -> (real, real)): (r: Sprite)
  {
    var coords := project(t.tileLocation.lat, t.tileLocation.long);
    Sprite(handle, (SpriteSide, SpriteSide), (coords.0, coords.1, 0.0))
  }

  /** The sprites spawned for `tiles`, in order, the k-th one showing the
      asset stored at `base + k`. */
  function SpritesFor(tiles: seq<Tile>, base: nat, project: (real, real) -> (real, real)): (r: seq<Sprite>)
  {
    if tiles == [] then []
    else SpritesFor(tiles[..|tiles| - 1], base, project)
         + [SpriteFor(tiles[|tiles| - 1], base + |tiles| - 1, project)]
  }

  /** The images added to the asset store for `tiles`, in order. */
  function ImagesOf(tiles: seq<Tile>): (r: seq<Image>)
  {
    if tiles == [] then [] else ImagesOf(tiles[..|tiles| - 1]) + [tiles[|tiles| - 1].image]
  }

  /** One sprite per tile, in order: the k-th sprite refers to the asset that
      holds the k-th tile's image, is 2080 x 2080 and stands at the projected
      position of the tile's coordinates. */
  lemma {:induction false} SpritesShowTheirTiles(tiles: seq<Tile>, images: seq<Image>,
                                                 project: (real, real) -> (real, real), k: nat)
    requires k < |tiles|
    ensures |SpritesFor(tiles, |images|, project)| == |ImagesOf(tiles)| == |tiles|
    ensures SpritesFor(tiles, |images|, project)[k].handle == |images| + k
    ensures (images + ImagesOf(tiles))[|images| + k] == tiles[k].image
    ensures SpritesFor(tiles, |images|, project)[k].customSize == (2080.0, 2080.0)
    ensures SpritesFor(tiles, |images|, project)[k].translation
         == (project(tiles[k].tileLocation.lat, tiles[k].tileLocation.long).0,
             project(tiles[k].tileLocation.lat, tiles[k].tileLocation.long).1, 0.0)
  {
    var init := tiles[..|tiles| - 1];
    if k < |init| {
      SpritesShowTheirTiles(init, images, project, k);
      assert tiles[k] == init[k];
    } else {
      SpritesLength(init, |images|, project);
      ImagesOfLength(init);
    }
  }

  lemma {:induction false} SpritesLength(tiles: seq<Tile>, base: nat, project: (real, real) -> (real, real))
    ensures |SpritesFor(tiles, base, project)| == |tiles|
  {
    if tiles != [] { SpritesLength(tiles[..|tiles| - 1], base, project); }
  }

  lemma {:induction false} ImagesOfLength(tiles: seq<Tile>)
    ensures |ImagesOf(tiles)| == |tiles|
  {
    if tiles != [] { ImagesOfLength(tiles[..|tiles| - 1]); }
  }

  /** The `OfmTiles` resource: the queue of tiles waiting to be shown. The
      R-tree of all tiles is not part of this model. */
  class OfmTiles {
    var tilesToRender: seq<Tile>

    constructor (pending: seq<Tile>)
      ensures tilesToRender == pending
    {
      tilesToRender := pending;
    }
  }

  /** Bevy's image assets and the sprite entities spawned through `Commands`. */
  class Scene {
    var images: seq<Image>
    var sprites: seq<Sprite>

    constructor ()
      ensures images == [] && sprites == []
    {
      images, sprites := [], [];
    }
  }

  /** `display_ofm_tile`: for each pending tile in order, add its image to the
      asset store and spawn a 2080 x 2080 sprite showing it at the projected
      position of the tile; then empty the queue. */
  method DisplayOfmTile(ofmTiles: OfmTiles, scene: Scene, project: (real, real) -> (real, real))
    modifies ofmTiles, scene
    ensures ofmTiles.tilesToRender == []
    ensures scene.images == old(scene.images) + ImagesOf(old(ofmTiles.tilesToRender))
    ensures scene.sprites
         == old(scene.sprites) + SpritesFor(old(ofmTiles.tilesToRender), |old(scene.images)|, project)
  {
    var pending := ofmTiles.tilesToRender;
    ghost var images0, sprites0 := scene.images, scene.sprites;
    for i := 0 to |pending|
      invariant scene.images == images0 + ImagesOf(pending[..i])
      invariant scene.sprites == sprites0 + SpritesFor(pending[..i], |images0|, project)
    {
      var tile := pending[i];
      assert pending[..i + 1][..i] == pending[..i];
      ImagesOfLength(pending[..i]);
      var handle := |scene.images|;
      scene.images := scene.images + [tile.image];
      var coords := project(tile.tileLocation.lat, tile.tileLocation.long);
      scene.sprites := scene.sprites + [Sprite(handle, (SpriteSide, SpriteSide), (coords.0, coords.1, 0.0))];
    }
    assert pending[..|pending|] == pending;
    ofmTiles.tilesToRender := [];
  }
}
