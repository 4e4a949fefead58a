/** One iteration of `process_vector_file`: the apparent size of the
    feature's geometry, then the fuzzy viewshed around its centroid. */
module Feature {
  import opened Results
  import opened Raster
  import opened Fuzzy
  import opened Compositor
  import opened Extent

  /** What processing one feature yields: the raster written for it, or the
      exception that stops it. The centroid is shapely's and is given. The
      error tells the two causes apart: `max()` on a ring without a vertex
      pair, or a viewshed raster whose shape is not the DEM's. */
  function FeatureViewshed(cfg: Config, dem: GridModel, geometry: Geometry, centroid: Coord,
                           viewshed: seq<seq<real>>, sqrt: real -> real): (r: Result<seq<seq<Cell>>>)
    ensures r.Failure? <==> DiameterOf(geometry, PointDistance(sqrt)).Failure? || !IsGrid(viewshed, dem.height, dem.width)
    ensures r.Failure? ==> (r.error == EmptyMaxArgument <==> DiameterOf(geometry, PointDistance(sqrt)).Failure?)
    ensures r.Failure? ==> (r.error == ShapeMismatch <==> DiameterOf(geometry, PointDistance(sqrt)).Success?)
  {
    match DiameterOf(geometry, PointDistance(sqrt))
    case Failure(e) => Failure(e)
    case Success(size) => CreateFuzzyViewshed(cfg, dem, centroid.x, centroid.y, size, viewshed, sqrt)
  }

  /** The body of the loop of `process_vector_file`: `max_diameter` of the geometry, then
      `create_fuzzy_viewshed` at the centroid with that size. It fails when
      the geometry has a ring without a vertex pair or when the viewshed
      raster does not match the DEM. */
  method ProcessFeature(cfg: Config, dem: GridModel, geometry: Geometry, centroid: Coord,
                        viewshed: seq<seq<real>>, sqrt: real -> real) returns (r: Result<seq<seq<Cell>>>)
    ensures r == FeatureViewshed(cfg, dem, geometry, centroid, viewshed, sqrt)
    ensures r.Failure? <==> DiameterOf(geometry, PointDistance(sqrt)).Failure? || !IsGrid(viewshed, dem.height, dem.width)
    ensures r.Success? ==> IsGrid(r.value, dem.height, dem.width)
  {
    var size := MaxDiameter(geometry, PointDistance(sqrt));
    if size.Failure? {
      return Failure(size.error);
    }
    r := CreateFuzzyViewshed(cfg, dem, centroid.x, centroid.y, size.value, viewshed, sqrt);
  }

  /** A point feature has no apparent size, so with `b1` at least -1 its
      decay uses `b2 = 1`: a visible cell inside the radius carries
      `Membership(d, b1, 1)`. */
  lemma PointFeatureDecaysWithUnitB2(cfg: Config, dem: GridModel, at: Coord,
                                                         viewshed: seq<seq<real>>, sqrt: real -> real, i: nat, j: nat)
    requires cfg.b1 >= -1.0
    requires IsGrid(viewshed, dem.height, dem.width)
    requires i < dem.height && j < dem.width
    ensures var r := FeatureViewshed(cfg, dem, Point(at), at, viewshed, sqrt);
      var d := DistanceMap(dem, at.x, at.y, sqrt)[i][j];
      && r.Success?
      && (cfg.maxDistance.None? || d <= cfg.maxDistance.value ==>
            r.value[i][j] == Value(if viewshed[i][j] > 0.0 then Membership(d, cfg.b1, 1.0) else 0.0))
  {
    ZeroWidthGivesUnitB2(cfg.b1, DistanceMultiplier);
  }

  /** A polygon whose exterior ring has fewer than two vertices makes the
      feature fail with the error of `max()` on an empty sequence. */
  lemma DegenerateRingFails(cfg: Config, dem: GridModel, shape: PolygonShape, centroid: Coord,
                                               viewshed: seq<seq<real>>, sqrt: real -> real)
    requires |shape.exterior| < 2
    ensures FeatureViewshed(cfg, dem, Polygon(shape), centroid, viewshed, sqrt) == Failure(EmptyMaxArgument)
  {
  }
}
