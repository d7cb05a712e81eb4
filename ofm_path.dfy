/** The path-building part of `ofm_to_image` (src/ofm_api.rs): every decoded
    feature geometry of every layer of a vector tile is drawn into one
    shared `PathBuilder` as `move_to` / `line_to` commands, with tile
    coordinates divided by `scale = 1.675`.

    Decoding the tile (`mvt_reader`) and stroking the path into pixels
    (`raqote`) are not modelled: the input is the already decoded layers and
    the output is the finished command sequence. A layer whose features
    fail to decode is skipped by the source (`get_features(i).iter()` yields
    nothing for an `Err`), which is the `Unreadable` case here. */
module OfmPath {

  /** A point of a geometry, in tile coordinates. */
  datatype Point = Point(x: real, y: real)

  /** `geo::Line`: a segment. */
  datatype Line = Line(start: Point, end: Point)

  /** `geo::Polygon`: an exterior ring and interior rings (holes). */
  datatype Polygon = Polygon(exterior: seq<Point>, interiors: seq<seq<Point>>)

  /** `geo::Geometry`, the kinds a decoded feature can have. */
  datatype Geometry =
    | PointGeometry(point: Point)
    | LineGeometry(line: Line)
    | LineString(points: seq<Point>)
    | PolygonGeometry(polygon: Polygon)
    | MultiPolygon(polygons: seq<Polygon>)
    | MultiPoint(points: seq<Point>)
    | MultiLineString(lineStrings: seq<seq<Point>>)
    | GeometryCollection(members: seq<Geometry>)
    | Rect(min: Point, max: Point)
    | Triangle(a: Point, b: Point, c: Point)

  /** A decoded feature; only its geometry is used. */
  datatype Feature = Feature(geometry: Geometry)

  /** The features of one layer, or a layer that failed to decode. */
  datatype Layer = Features(features: seq<Feature>) | Unreadable

  /** A path command of raqote's `PathBuilder`. */
  datatype PathOp = MoveTo(x: real, y: real) | LineTo(x: real, y: real)

  /** `scale`: tile coordinates per pixel. */
  const Scale: real := 1.675

  /** A point of a geometry in pixel coordinates. */
  function Scaled(p: Point): (real, real)
  {
    (p.x / Scale, p.y / Scale)
  }

  function At(op: PathOp): (real, real)
  {
    (op.x, op.y)
  }

  // ---------------------------------------------------------------------
  // The commands each geometry kind produces

  /** A point is marked by a move to the point and three lines to the
      other corners of the one-pixel cell to its lower right. */
  function PointOps(p: Point): (r: seq<PathOp>)
  {
    var (x, y) := Scaled(p);
    [MoveTo(x, y), LineTo(x + 1.0, y + 1.0), LineTo(x + 1.0, y), LineTo(x, y + 1.0)]
  }

  function LineOps(l: Line): (r: seq<PathOp>)
  {
    [MoveTo(Scaled(l.start).0, Scaled(l.start).1), LineTo(Scaled(l.end).0, Scaled(l.end).1)]
  }

  /** `LineString::lines()`: the segments between consecutive points. */
  function Lines(points: seq<Point>): (r: seq<Line>)
  {
    if |points| < 2 then []
    else Lines(points[..|points| - 1]) + [Line(points[|points| - 2], points[|points| - 1])]
  }

  /** Segment j of a line string runs from point j to point j + 1. */
  lemma {:induction false} LinesAreConsecutivePairs(points: seq<Point>)
    ensures |points| >= 1 ==> |Lines(points)| == |points| - 1
    ensures |points| == 0 ==> Lines(points) == []
    ensures forall j :: 0 <= j < |Lines(points)| ==> Lines(points)[j] == Line(points[j], points[j + 1])
  {
    if |points| >= 2 {
      var init := points[..|points| - 1];
      LinesAreConsecutivePairs(init);
      forall j | 0 <= j < |Lines(init)| ensures Lines(points)[j] == Line(points[j], points[j + 1]) {
        assert Lines(points)[j] == Lines(init)[j];
        assert init[j] == points[j] && init[j + 1] == points[j + 1];
      }
    }
  }

  /** The commands for the j-th segment of a line string: the first one
      starts a subpath, every later one continues it. */
  function SegmentOps(l: Line, first: bool): (r: seq<PathOp>)
  {
    var (sx, sy) := Scaled(l.start);
    var (ex, ey) := Scaled(l.end);
    if first then [MoveTo(sx, sy), LineTo(ex, ey)] else [LineTo(sx, sy), LineTo(ex, ey)]
  }

  function SegmentsOps(lines: seq<Line>): (r: seq<PathOp>)
  {
    if lines == [] then []
    else SegmentsOps(lines[..|lines| - 1]) + SegmentOps(lines[|lines| - 1], |lines| == 1)
  }

  function LineStringOps(points: seq<Point>): (r: seq<PathOp>)
  {
    SegmentsOps(Lines(points))
  }

  /** The commands for the j-th point of a polygon's exterior ring: every
      point is visited twice, the first one with a move. */
  function VertexOps(p: Point, first: bool): (r: seq<PathOp>)
  {
    var (x, y) := Scaled(p);
    if first then [MoveTo(x, y), LineTo(x, y)] else [LineTo(x, y), LineTo(x, y)]
  }

  function RingOps(points: seq<Point>): (r: seq<PathOp>)
  {
    if points == [] then []
    else RingOps(points[..|points| - 1]) + VertexOps(points[|points| - 1], |points| == 1)
  }

  /** Only the exterior ring of a polygon is drawn. */
  function PolygonOps(polygon: Polygon): (r: seq<PathOp>)
  {
    RingOps(polygon.exterior)
  }

  function PolygonsOps(polygons: seq<Polygon>): (r: seq<PathOp>)
  {
    if polygons == [] then []
    else PolygonsOps(polygons[..|polygons| - 1]) + PolygonOps(polygons[|polygons| - 1])
  }

  function PointsOps(points: seq<Point>): (r: seq<PathOp>)
  {
    if points == [] then []
    else PointsOps(points[..|points| - 1]) + PointOps(points[|points| - 1])
  }

  function LineStringsOps(lineStrings: seq<seq<Point>>): (r: seq<PathOp>)
  {
    if lineStrings == [] then []
    else LineStringsOps(lineStrings[..|lineStrings| - 1]) + LineStringOps(lineStrings[|lineStrings| - 1])
  }

  /** The commands for one geometry; collections, rectangles and triangles
      are only logged by the source and draw nothing. */
  function GeometryOps(g: Geometry): (r: seq<PathOp>)
  {
    match g
    case PointGeometry(p) => PointOps(p)
    case LineGeometry(l) => LineOps(l)
    case LineString(points) => LineStringOps(points)
    case PolygonGeometry(polygon) => PolygonOps(polygon)
    case MultiPolygon(polygons) => PolygonsOps(polygons)
    case MultiPoint(points) => PointsOps(points)
    case MultiLineString(lineStrings) => LineStringsOps(lineStrings)
    case GeometryCollection(_) => []
    case Rect(_, _) => []
    case Triangle(_, _, _) => []
  }

  function FeaturesOps(features: seq<Feature>): (r: seq<PathOp>)
  {
    if features == [] then []
    else FeaturesOps(features[..|features| - 1]) + GeometryOps(features[|features| - 1].geometry)
  }

  function LayerOps(layer: Layer): (r: seq<PathOp>)
  {
    match layer
    case Features(features) => FeaturesOps(features)
    case Unreadable => []
  }

  /** The finished path: layer by layer, feature by feature. */
  function LayersOps(layers: seq<Layer>): (r: seq<PathOp>)
  {
    if layers == [] then []
    else LayersOps(layers[..|layers| - 1]) + LayerOps(layers[|layers| - 1])
  }

  // ---------------------------------------------------------------------
  // Shapes and counts

  /** The number of subpaths started in ops. */
  function CountMoveTo(ops: seq<PathOp>): (r: nat)
  {
    if ops == [] then 0
    else CountMoveTo(ops[..|ops| - 1]) + (if ops[|ops| - 1].MoveTo? then 1 else 0)
  }

  /** A command sequence that is empty or starts a subpath first. */
  predicate StartsWithMove(ops: seq<PathOp>): (b: bool)
  {
    ops == [] || ops[0].MoveTo?
  }

  lemma {:induction false} CountMoveToConcat(a: seq<PathOp>, b: seq<PathOp>)
    ensures CountMoveTo(a + b) == CountMoveTo(a) + CountMoveTo(b)
  {
    if b != [] {
      assert a + b == (a + b[..|b| - 1]) + [b[|b| - 1]];
      CountMoveToConcat(a, b[..|b| - 1]);
    } else {
      assert a + b == a;
    }
  }

  lemma StartsWithMoveConcat(a: seq<PathOp>, b: seq<PathOp>)
    requires StartsWithMove(a) && StartsWithMove(b)
    ensures StartsWithMove(a + b)
  {
    if a == [] { assert a + b == b; }
  }

  /** A point is drawn as one subpath of four commands through the four
      corners of the one-pixel cell at its scaled position. */
  lemma PointMarksItsCell(p: Point)
    ensures |PointOps(p)| == 4 && PointOps(p)[0].MoveTo? && CountMoveTo(PointOps(p)) == 1
    ensures var (x, y) := Scaled(p);
      (set k | 0 <= k < 4 :: At(PointOps(p)[k])) == {(x, y), (x + 1.0, y), (x, y + 1.0), (x + 1.0, y + 1.0)}
  {
    var ops := PointOps(p);
    MoveCountOfShape(ops);
    var (x, y) := Scaled(p);
    var corners := set k | 0 <= k < 4 :: At(ops[k]);
    assert At(ops[0]) == (x, y) && At(ops[1]) == (x + 1.0, y + 1.0);
    assert At(ops[2]) == (x + 1.0, y) && At(ops[3]) == (x, y + 1.0);
    assert corners == {At(ops[0]), At(ops[1]), At(ops[2]), At(ops[3])};
  }

  /** The segments of a line string become 2 commands each: one move to the
      start of the first segment and only lines after it; the pair for
      segment j goes through its start and its end. */
  lemma {:induction false} SegmentsShape(lines: seq<Line>)
    ensures |SegmentsOps(lines)| == 2 * |lines|
    ensures forall k :: 0 <= k < |SegmentsOps(lines)| ==> (SegmentsOps(lines)[k].MoveTo? <==> k == 0)
    ensures forall j :: 0 <= j < |lines| ==>
      At(SegmentsOps(lines)[2 * j]) == Scaled(lines[j].start)
      && At(SegmentsOps(lines)[2 * j + 1]) == Scaled(lines[j].end)
  {
    if lines != [] {
      var init, last := lines[..|lines| - 1], lines[|lines| - 1];
      SegmentsShape(init);
      var prev, ops := SegmentsOps(init), SegmentsOps(lines);
      assert ops == prev + SegmentOps(last, |lines| == 1);
      forall k | 0 <= k < |prev| ensures ops[k] == prev[k] { }
      forall j | 0 <= j < |init| ensures lines[j] == init[j] { }
    }
  }

  /** A line string of at least two points is one subpath of 2 (k - 1)
      commands through its points in order; with fewer points nothing is
      drawn. */
  lemma LineStringShape(points: seq<Point>)
    ensures |points| < 2 ==> LineStringOps(points) == []
    ensures |points| >= 2 ==>
      |LineStringOps(points)| == 2 * (|points| - 1)
      && LineStringOps(points)[0] == MoveTo(Scaled(points[0]).0, Scaled(points[0]).1)
      && (forall k :: 0 < k < |LineStringOps(points)| ==> LineStringOps(points)[k].LineTo?)
      && (forall j :: 0 <= j < |points| - 1 ==>
            At(LineStringOps(points)[2 * j]) == Scaled(points[j])
            && At(LineStringOps(points)[2 * j + 1]) == Scaled(points[j + 1]))
  {
    var lines := Lines(points);
    SegmentsShape(lines);
    LinesAreConsecutivePairs(points);
    if |points| >= 2 {
      assert lines[0] == Line(points[0], points[1]);
      assert At(LineStringOps(points)[0]) == Scaled(points[0]);
      forall j | 0 <= j < |points| - 1
        ensures lines[j].start == points[j] && lines[j].end == points[j + 1]
      {
        assert lines[j] == Line(points[j], points[j + 1]);
      }
    }
  }

  /** The exterior ring of a polygon with m points is one subpath of 2 m
      commands, each point twice in order; interior rings draw nothing. */
  lemma {:induction false} RingShape(points: seq<Point>)
    ensures |RingOps(points)| == 2 * |points|
    ensures forall k :: 0 <= k < |RingOps(points)| ==> (RingOps(points)[k].MoveTo? <==> k == 0)
    ensures forall j :: 0 <= j < |points| ==>
      At(RingOps(points)[2 * j]) == Scaled(points[j]) && At(RingOps(points)[2 * j + 1]) == Scaled(points[j])
  {
    if points != [] {
      var init, last := points[..|points| - 1], points[|points| - 1];
      RingShape(init);
      var prev, ops := RingOps(init), RingOps(points);
      assert ops == prev + VertexOps(last, |points| == 1);
      forall k | 0 <= k < |prev| ensures ops[k] == prev[k] { }
      forall j | 0 <= j < |init| ensures points[j] == init[j] { }
    }
  }

  /** What a polygon draws depends on its exterior ring only. */
  lemma PolygonIgnoresInteriors(exterior: seq<Point>, holes: seq<seq<Point>>)
    ensures GeometryOps(PolygonGeometry(Polygon(exterior, holes))) == RingOps(exterior)
  {
  }

  /** Collections, rectangles and triangles draw nothing. */
  lemma UnsupportedKindsDrawNothing(g: Geometry)
    requires g.GeometryCollection? || g.Rect? || g.Triangle?
    ensures GeometryOps(g) == []
  {
  }

  /** The number of subpaths a geometry contributes, counted on the
      geometry itself: one per point, per line, per line string of two or
      more points and per polygon with a non-empty exterior. */
  function Subpaths(g: Geometry): (r: nat)
  {
    match g
    case PointGeometry(_) => 1
    case LineGeometry(_) => 1
    case LineString(points) => if |points| >= 2 then 1 else 0
    case PolygonGeometry(polygon) => if polygon.exterior != [] then 1 else 0
    case MultiPolygon(polygons) => |set k | 0 <= k < |polygons| && polygons[k].exterior != []|
    case MultiPoint(points) => |points|
    case MultiLineString(lineStrings) => |set k | 0 <= k < |lineStrings| && |lineStrings[k]| >= 2|
    case GeometryCollection(_) => 0
    case Rect(_, _) => 0
    case Triangle(_, _, _) => 0
  }

  lemma RingMoves(points: seq<Point>)
    ensures CountMoveTo(RingOps(points)) == (if points != [] then 1 else 0)
    ensures StartsWithMove(RingOps(points))
  {
    RingShape(points);
    MoveCountOfShape(RingOps(points));
  }

  lemma LineStringMoves(points: seq<Point>)
    ensures CountMoveTo(LineStringOps(points)) == (if |points| >= 2 then 1 else 0)
    ensures StartsWithMove(LineStringOps(points))
  {
    LineStringShape(points);
    SegmentsShape(Lines(points));
    MoveCountOfShape(LineStringOps(points));
  }

  /** A sequence whose only move is its first command has one subpath. */
  lemma {:induction false} MoveCountOfShape(ops: seq<PathOp>)
    requires forall k :: 0 <= k < |ops| ==> (ops[k].MoveTo? <==> k == 0)
    ensures CountMoveTo(ops) == (if ops != [] then 1 else 0)
  {
    if ops != [] {
      var init := ops[..|ops| - 1];
      forall k | 0 <= k < |init| ensures (init[k].MoveTo? <==> k == 0) {
        assert init[k] == ops[k];
      }
      MoveCountOfShape(init);
    }
  }

  /** Counting over a prefix: the set of indices below n that satisfy a
      property grows by n exactly when n satisfies it. */
  lemma CountStep(included: set<int>, smaller: set<int>, n: int, add: bool)
    requires forall k :: k in smaller <==> k in included && k < n
    requires forall k :: k in included ==> k <= n
    requires n in included <==> add
    ensures |included| == |smaller| + (if add then 1 else 0)
  {
    if add {
      forall k ensures k in included <==> k in smaller + {n} {
        if k in included && k != n { assert k < n; }
      }
      assert included == smaller + {n};
    } else {
      forall k ensures k in included <==> k in smaller {
        if k in included { assert k != n; }
      }
      assert included == smaller;
    }
  }

  lemma {:induction false} PolygonsMoves(polygons: seq<Polygon>)
    ensures CountMoveTo(PolygonsOps(polygons)) == |set k | 0 <= k < |polygons| && polygons[k].exterior != []|
    ensures StartsWithMove(PolygonsOps(polygons))
  {
    if polygons != [] {
      var init, last := polygons[..|polygons| - 1], polygons[|polygons| - 1];
      PolygonsMoves(init);
      RingMoves(last.exterior);
      CountMoveToConcat(PolygonsOps(init), PolygonOps(last));
      StartsWithMoveConcat(PolygonsOps(init), PolygonOps(last));
      CountStep(set k | 0 <= k < |polygons| && polygons[k].exterior != [],
                set k | 0 <= k < |init| && init[k].exterior != [],
                |init|, last.exterior != []);
    }
  }

  lemma {:induction false} LineStringsMoves(lineStrings: seq<seq<Point>>)
    ensures CountMoveTo(LineStringsOps(lineStrings)) == |set k | 0 <= k < |lineStrings| && |lineStrings[k]| >= 2|
    ensures StartsWithMove(LineStringsOps(lineStrings))
  {
    if lineStrings != [] {
      var init, last := lineStrings[..|lineStrings| - 1], lineStrings[|lineStrings| - 1];
      LineStringsMoves(init);
      LineStringMoves(last);
      CountMoveToConcat(LineStringsOps(init), LineStringOps(last));
      StartsWithMoveConcat(LineStringsOps(init), LineStringOps(last));
      CountStep(set k | 0 <= k < |lineStrings| && |lineStrings[k]| >= 2,
                set k | 0 <= k < |init| && |init[k]| >= 2,
                |init|, |last| >= 2);
    }
  }

  lemma {:induction false} PointsMoves(points: seq<Point>)
    ensures CountMoveTo(PointsOps(points)) == |points|
    ensures |PointsOps(points)| == 4 * |points|
    ensures StartsWithMove(PointsOps(points))
  {
    if points != [] {
      var init, last := points[..|points| - 1], points[|points| - 1];
      PointsMoves(init);
      PointMarksItsCell(last);
      CountMoveToConcat(PointsOps(init), PointOps(last));
      StartsWithMoveConcat(PointsOps(init), PointOps(last));
    }
  }

  /** Every geometry draws as many subpaths as it has drawable parts, and
      whatever it draws begins with a move, so no geometry's first line is
      joined to the previous geometry's last point. */
  lemma GeometrySubpaths(g: Geometry)
    ensures CountMoveTo(GeometryOps(g)) == Subpaths(g)
    ensures StartsWithMove(GeometryOps(g))
  {
    match g
    case PointGeometry(p) => PointMarksItsCell(p);
    case LineGeometry(l) => MoveCountOfShape(GeometryOps(g));
    case LineString(points) => LineStringMoves(points);
    case PolygonGeometry(polygon) => RingMoves(polygon.exterior);
    case MultiPolygon(polygons) => PolygonsMoves(polygons);
    case MultiPoint(points) => PointsMoves(points);
    case MultiLineString(lineStrings) => LineStringsMoves(lineStrings);
    case GeometryCollection(_) =>
    case Rect(_, _) =>
    case Triangle(_, _, _) =>
  }

  /** Layers are drawn in order: the path for a + b is the path for a
      followed by the path for b. */
  lemma {:induction false} LayersOpsConcat(a: seq<Layer>, b: seq<Layer>)
    ensures LayersOps(a + b) == LayersOps(a) + LayersOps(b)
  {
    if b != [] {
      var init, last := b[..|b| - 1], b[|b| - 1];
      assert a + b == (a + init) + [last];
      assert b == init + [last];
      LayersOpsConcat(a, init);
      LayersOpsSnoc(a + init, last);
      LayersOpsSnoc(init, last);
    } else {
      assert a + b == a;
    }
  }

  /** One more layer appends the commands of that layer alone. */
  lemma LayersOpsSnoc(layers: seq<Layer>, layer: Layer)
    ensures LayersOps(layers + [layer]) == LayersOps(layers) + LayersOps([layer])
  {
    assert (layers + [layer])[..|layers|] == layers;
    assert [layer][..0] == [];
  }

  /** Features are drawn in order: one more feature appends its geometry's commands. */
  lemma FeaturesOpsAppend(features: seq<Feature>, f: Feature)
    ensures FeaturesOps(features + [f]) == FeaturesOps(features) + GeometryOps(f.geometry)
  {
    assert (features + [f])[..|features|] == features;
  }

  /** The whole path starts with a move whenever it draws anything. */
  lemma {:induction false} PathStartsWithMove(layers: seq<Layer>)
    ensures StartsWithMove(LayersOps(layers))
  {
    if layers != [] {
      var init, last := layers[..|layers| - 1], layers[|layers| - 1];
      PathStartsWithMove(init);
      if last.Features? {
        FeaturesStartWithMove(last.features);
      }
      StartsWithMoveConcat(LayersOps(init), LayerOps(last));
    }
  }

  lemma {:induction false} FeaturesStartWithMove(features: seq<Feature>)
    ensures StartsWithMove(FeaturesOps(features))
  {
    if features != [] {
      var init, last := features[..|features| - 1], features[|features| - 1];
      FeaturesStartWithMove(init);
      GeometrySubpaths(last.geometry);
      StartsWithMoveConcat(FeaturesOps(init), GeometryOps(last.geometry));
    }
  }

  // ---------------------------------------------------------------------
  // The path builder and the drawing loops

  /** raqote's `PathBuilder`: the commands recorded so far. */
  class PathBuilder {
    var ops: seq<PathOp>

    constructor ()
      ensures ops == []
    {
      ops := [];
    }

    method MoveTo(x: real, y: real)
      modifies this
      ensures ops == old(ops) + [PathOp.MoveTo(x, y)]
    {
      ops := ops + [PathOp.MoveTo(x, y)];
    }

    method LineTo(x: real, y: real)
      modifies this
      ensures ops == old(ops) + [PathOp.LineTo(x, y)]
    {
      ops := ops + [PathOp.LineTo(x, y)];
    }

    /** `finish`: the path made of the recorded commands. */
    method Finish() returns (path: seq<PathOp>)
      ensures path == ops
    {
      path := ops;
    }
  }

  /** The `Point` arm (also the body of the `MultiPoint` loop). */
  method DrawPoint(pb: PathBuilder, p: Point)
    modifies pb
    ensures pb.ops == old(pb.ops) + PointOps(p)
  {
    var x, y := p.x / Scale, p.y / Scale;
    pb.MoveTo(x, y);
    pb.LineTo(x + 1.0, y + 1.0);
    pb.LineTo(x + 1.0, y);
    pb.LineTo(x, y + 1.0);
  }

  /** The `LineString` arm (also the body of the `MultiLineString` loop). */
  method DrawLineString(pb: PathBuilder, points: seq<Point>)
    modifies pb
    ensures pb.ops == old(pb.ops) + LineStringOps(points)
  {
    var lines := Lines(points);
    ghost var ops0 := pb.ops;
    for j := 0 to |lines|
      invariant pb.ops == ops0 + SegmentsOps(lines[..j])
    {
      assert lines[..j + 1][..j] == lines[..j];
      var line := lines[j];
      if j == 0 {
        pb.MoveTo(line.start.x / Scale, line.start.y / Scale);
        pb.LineTo(line.end.x / Scale, line.end.y / Scale);
      } else {
        pb.LineTo(line.start.x / Scale, line.start.y / Scale);
        pb.LineTo(line.end.x / Scale, line.end.y / Scale);
      }
    }
    assert lines[..|lines|] == lines;
  }

  /** The `Polygon` arm (also the body of the `MultiPolygon` loop): the
      exterior ring, each point twice. */
  method DrawExterior(pb: PathBuilder, polygon: Polygon)
    modifies pb
    ensures pb.ops == old(pb.ops) + PolygonOps(polygon)
  {
    var ring := polygon.exterior;
    ghost var ops0 := pb.ops;
    for j := 0 to |ring|
      invariant pb.ops == ops0 + RingOps(ring[..j])
    {
      assert ring[..j + 1][..j] == ring[..j];
      var p := ring[j];
      if j == 0 {
        pb.MoveTo(p.x / Scale, p.y / Scale);
        pb.LineTo(p.x / Scale, p.y / Scale);
      } else {
        pb.LineTo(p.x / Scale, p.y / Scale);
        pb.LineTo(p.x / Scale, p.y / Scale);
      }
    }
    assert ring[..|ring|] == ring;
  }

  method DrawPolygons(pb: PathBuilder, polygons: seq<Polygon>)
    modifies pb
    ensures pb.ops == old(pb.ops) + PolygonsOps(polygons)
  {
    ghost var ops0 := pb.ops;
    for k := 0 to |polygons|
      invariant pb.ops == ops0 + PolygonsOps(polygons[..k])
    {
      assert polygons[..k + 1][..k] == polygons[..k];
      DrawExterior(pb, polygons[k]);
    }
    assert polygons[..|polygons|] == polygons;
  }

  method DrawPoints(pb: PathBuilder, points: seq<Point>)
    modifies pb
    ensures pb.ops == old(pb.ops) + PointsOps(points)
  {
    ghost var ops0 := pb.ops;
    for k := 0 to |points|
      invariant pb.ops == ops0 + PointsOps(points[..k])
    {
      assert points[..k + 1][..k] == points[..k];
      DrawPoint(pb, points[k]);
    }
    assert points[..|points|] == points;
  }

  method DrawLineStrings(pb: PathBuilder, lineStrings: seq<seq<Point>>)
    modifies pb
    ensures pb.ops == old(pb.ops) + LineStringsOps(lineStrings)
  {
    ghost var ops0 := pb.ops;
    for k := 0 to |lineStrings|
      invariant pb.ops == ops0 + LineStringsOps(lineStrings[..k])
    {
      assert lineStrings[..k + 1][..k] == lineStrings[..k];
      DrawLineString(pb, lineStrings[k]);
    }
    assert lineStrings[..|lineStrings|] == lineStrings;
  }

  /** The `match` on one feature's geometry. */
  method DrawGeometry(pb: PathBuilder, g: Geometry)
    modifies pb
    ensures pb.ops == old(pb.ops) + GeometryOps(g)
  {
    match g
    case PointGeometry(p) => DrawPoint(pb, p);
    case LineGeometry(l) =>
      pb.MoveTo(l.start.x / Scale, l.start.y / Scale);
      pb.LineTo(l.end.x / Scale, l.end.y / Scale);
    case LineString(points) => DrawLineString(pb, points);
    case PolygonGeometry(polygon) => DrawExterior(pb, polygon);
    case MultiPolygon(polygons) => DrawPolygons(pb, polygons);
    case MultiPoint(points) => DrawPoints(pb, points);
    case MultiLineString(lineStrings) => DrawLineStrings(pb, lineStrings);
    case GeometryCollection(_) =>
    case Rect(_, _) =>
    case Triangle(_, _, _) =>
  }

  method DrawFeature(pb: PathBuilder, ghost ops0: seq<PathOp>, ghost drawn: seq<Feature>, f: Feature)
    modifies pb
    requires pb.ops == ops0 + FeaturesOps(drawn)
    ensures pb.ops == ops0 + FeaturesOps(drawn + [f])
  {
    FeaturesOpsAppend(drawn, f);
    DrawGeometry(pb, f.geometry);
  }

  method DrawFeatures(pb: PathBuilder, features: seq<Feature>)
    modifies pb
    ensures pb.ops == old(pb.ops) + FeaturesOps(features)
  {
    ghost var ops0 := pb.ops;
    for k := 0 to |features|
      invariant pb.ops == ops0 + FeaturesOps(features[..k])
    {
      assert features[..k + 1] == features[..k] + [features[k]];
      DrawFeature(pb, ops0, features[..k], features[k]);
    }
    assert features[..|features|] == features;
  }

  /** The layer and feature loops of `ofm_to_image`, then `pb.finish()`. */
  method OfmToPath(layers: seq<Layer>) returns (path: seq<PathOp>)
    ensures path == LayersOps(layers)
  {
    var pb := new PathBuilder();
    for i := 0 to |layers|
      invariant pb.ops == LayersOps(layers[..i])
    {
      assert layers[..i + 1][..i] == layers[..i];
      match layers[i]
      case Features(features) => DrawFeatures(pb, features);
      case Unreadable =>
    }
    assert layers[..|layers|] == layers;
    path := pb.Finish();
  }
}
