/** The apparent size of a feature: `max_diameter`, the largest distance
    between two vertices of a polygon's exterior ring, taken per polygon for
    a multipolygon and 0 for any other geometry; and
    `calculate_max_distance`, the maximum over all vertex pairs. */
module Extent {
  import opened Results
  import opened Reals

  /** A planar position (shapely keeps only x and y for distances). */
  datatype Coord = Coord(x: real, y: real)

  /** A polygon: its exterior ring as listed by `exterior.coords` (closed, so
      the first vertex comes again at the end) and its interior rings. */
  datatype PolygonShape = PolygonShape(exterior: seq<Coord>, interiors: seq<seq<Coord>>)

  /** The geometries a feature may carry. */
  datatype Geometry =
    | Point(at: Coord)
    | LineString(coords: seq<Coord>)
    | Polygon(shape: PolygonShape)
    | MultiPolygon(geoms: seq<PolygonShape>)

  /** `Point(p).distance(Point(q))`: the planar Euclidean distance, with the
      square root given as `sqrt`. The maximum computations below hold for
      any distance function `dist` and are given this one by the caller.
      With a true root it is non-negative and 0 exactly between equal points. */
  function EuclideanDistance(p: Coord, q: Coord, sqrt: real -> real): (r: real)
    ensures IsSquareRoot(sqrt) ==> 0.0 <= r && (r == 0.0 <==> p == q)
  {
    var dx, dy := p.x - q.x, p.y - q.y;
    SquareNonNegative(dx);
    SquareNonNegative(dy);
    SumOfSquaresZero(dx, dy);
    RootZero(sqrt, Sq(dx) + Sq(dy));
    sqrt(Sq(dx) + Sq(dy))
  }

  /** The distance does not depend on the order of the two points. */
  lemma EuclideanSymmetric(sqrt: real -> real)
    ensures forall p, q :: EuclideanDistance(p, q, sqrt) == EuclideanDistance(q, p, sqrt)
  {
    forall p: Coord, q: Coord
      ensures EuclideanDistance(p, q, sqrt) == EuclideanDistance(q, p, sqrt)
    {
      SquareOfNegation(p.x - q.x);
      SquareOfNegation(p.y - q.y);
    }
  }

  /** The largest distance from some point of `pts` to `q`. */
  function MaxDistanceTo(pts: seq<Coord>, q: Coord, dist: (Coord, Coord) -> real): (r: real)
    requires |pts| >= 1
    ensures forall i :: 0 <= i < |pts| ==> dist(pts[i], q) <= r
    ensures exists i :: 0 <= i < |pts| && r == dist(pts[i], q)
    decreases |pts|
  {
    if |pts| == 1 then dist(pts[0], q)
    else
      var rest := MaxDistanceTo(pts[..|pts| - 1], q, dist);
      Max(rest, dist(pts[|pts| - 1], q))
  }

  /** The maximum over `combinations(points, 2)` of the pair distances: an
      upper bound of every pair `(points[i], points[j])` with `i < j`, and
      attained by one of them. */
  function MaxPairDistance(points: seq<Coord>, dist: (Coord, Coord) -> real): (r: real)
    requires |points| >= 2
    ensures forall i, j :: 0 <= i < j < |points| ==> dist(points[i], points[j]) <= r
    ensures exists i, j :: 0 <= i < j < |points| && r == dist(points[i], points[j])
    decreases |points|, 1
  {
    if |points| == 2 then dist(points[0], points[1])
    else
      PairMaxStepBounds(points, dist);
      PairMaxStepAttained(points, dist);
      Max(MaxPairDistance(points[..|points| - 1], dist), MaxDistanceTo(points[..|points| - 1], points[|points| - 1], dist))
  }

  /** Adding a last point to a list adds, as new pairs, the pairs that end
      at it, so the larger of the old maximum and the farthest distance to
      the new point bounds every pair of the longer list ... */
  lemma {:induction false} PairMaxStepBounds(points: seq<Coord>, dist: (Coord, Coord) -> real)
    requires |points| > 2
    ensures var front := points[..|points| - 1];
      var m := Max(MaxPairDistance(front, dist), MaxDistanceTo(front, points[|points| - 1], dist));
      forall i, j :: 0 <= i < j < |points| ==> dist(points[i], points[j]) <= m
    decreases |points|, 0
  {
    var front := points[..|points| - 1];
    var last := points[|points| - 1];
    var inFront, toLast := MaxPairDistance(front, dist), MaxDistanceTo(front, last, dist);
    forall i, j | 0 <= i < j < |points|
      ensures dist(points[i], points[j]) <= Max(inFront, toLast)
    {
      assert points[i] == front[i];
      if j < |front| {
        assert points[j] == front[j];
        assert dist(front[i], front[j]) <= inFront;
      } else {
        assert points[j] == last;
        assert dist(front[i], last) <= toLast;
      }
    }
  }

  /** ... and is the distance of one of its pairs. */
  lemma {:induction false} PairMaxStepAttained(points: seq<Coord>, dist: (Coord, Coord) -> real)
    requires |points| > 2
    ensures var front := points[..|points| - 1];
      var m := Max(MaxPairDistance(front, dist), MaxDistanceTo(front, points[|points| - 1], dist));
      exists i, j :: 0 <= i < j < |points| && m == dist(points[i], points[j])
    decreases |points|, 0
  {
    var front := points[..|points| - 1];
    var last := points[|points| - 1];
    var inFront, toLast := MaxPairDistance(front, dist), MaxDistanceTo(front, last, dist);
    if inFront >= toLast {
      var i, j :| 0 <= i < j < |front| && inFront == dist(front[i], front[j]);
      assert points[i] == front[i] && points[j] == front[j];
      assert Max(inFront, toLast) == dist(points[i], points[j]);
    } else {
      var i :| 0 <= i < |front| && toLast == dist(front[i], last);
      assert points[i] == front[i];
      assert Max(inFront, toLast) == dist(points[i], points[|points| - 1]);
    }
  }

  /** `calculate_max_distance`: `max` of the pair distances, which raises for
      fewer than two points since there is then no pair. */
  function CalculateMaxDistance(points: seq<Coord>, dist: (Coord, Coord) -> real): (r: Result<real>)
    ensures r.Failure? <==> |points| < 2
    ensures r.Failure? ==> r.error == EmptyMaxArgument
  {
    if |points| < 2 then Failure(EmptyMaxArgument) else Success(MaxPairDistance(points, dist))
  }

  /** With at least two points, `calculate_max_distance` returns an upper
      bound of every pair distance that one pair attains. */
  lemma CalculateMaxDistanceIsLargestPair(points: seq<Coord>, dist: (Coord, Coord) -> real)
    requires |points| >= 2
    ensures CalculateMaxDistance(points, dist).Success?
    ensures var m := CalculateMaxDistance(points, dist).value;
      && (forall i, j :: 0 <= i < j < |points| ==> dist(points[i], points[j]) <= m)
      && (exists i, j :: 0 <= i < j < |points| && m == dist(points[i], points[j]))
  {
    var m := MaxPairDistance(points, dist);
  }

  /** What `calculate_max_distance` gives for each polygon of a
      multipolygon, in the order of `geometry.geoms`. */
  function PartResults(geoms: seq<PolygonShape>, dist: (Coord, Coord) -> real): (rs: seq<Result<real>>)
    ensures |rs| == |geoms|
    ensures forall k :: 0 <= k < |geoms| ==> rs[k] == CalculateMaxDistance(geoms[k].exterior, dist)
  {
    seq(|geoms|, k requires 0 <= k < |geoms| => CalculateMaxDistance(geoms[k].exterior, dist))
  }

  /** The running maximum of the multipolygon loop of `max_diameter` over the
      per-polygon results, starting from 0 and keeping the old value on a
      tie; the first result that raised is raised again. A success is never
      below the starting 0, and a failure is the error of one of the results. */
  function RunningMax(results: seq<Result<real>>): (r: Result<real>)
    ensures r.Success? ==> r.value >= 0.0
    ensures r.Failure? ==> exists k :: 0 <= k < |results| && results[k] == Failure(r.error)
    decreases |results|
  {
    if results == [] then Success(0.0)
    else
      var front := results[..|results| - 1];
      assert forall k :: 0 <= k < |front| ==> front[k] == results[k];
      match RunningMax(front)
      case Failure(e) => Failure(e)
      case Success(acc) =>
        match results[|results| - 1]
        case Failure(e) => Failure(e)
        case Success(current) => Success(if current > acc then current else acc)
  }

  /** What `max_diameter` returns (or raises) for a geometry: the only error
      it can raise is that of `max()` on a ring without a vertex pair, and a
      multipolygon's value is never below the starting 0. */
  function DiameterOf(geometry: Geometry, dist: (Coord, Coord) -> real): (r: Result<real>)
    ensures r.Failure? ==> r.error == EmptyMaxArgument
    ensures geometry.MultiPolygon? && r.Success? ==> r.value >= 0.0
  {
    match geometry
    case Polygon(shape) => CalculateMaxDistance(shape.exterior, dist)
    case MultiPolygon(geoms) => RunningMax(PartResults(geoms, dist))
    case _ => Success(0.0)
  }

  /** `max_diameter`, with its running maximum over the polygons of a
      multipolygon. */
  method MaxDiameter(geometry: Geometry, dist: (Coord, Coord) -> real) returns (r: Result<real>)
    ensures r == DiameterOf(geometry, dist)
    ensures geometry.Point? || geometry.LineString? ==> r == Success(0.0)
  {
    var maxDist := 0.0;
    match geometry {
      case Polygon(shape) =>
        r := CalculateMaxDistance(shape.exterior, dist);
        return;
      case MultiPolygon(geoms) =>
        ghost var results := PartResults(geoms, dist);
        var k := 0;
        while k < |geoms|
          invariant 0 <= k <= |geoms|
          invariant RunningMax(results[..k]) == Success(maxDist)
        {
          assert results[..k + 1][..k] == results[..k];
          var current := CalculateMaxDistance(geoms[k].exterior, dist);
          if current.Failure? {
            r := Failure(current.error);
            RaisedErrorPersists(results, k + 1);
            return;
          }
          if current.value > maxDist {
            maxDist := current.value;
          }
          k := k + 1;
        }
        assert results[..k] == results;
      case _ =>
    }
    r := Success(maxDist);
  }

  /** Once the loop has raised on a prefix of the results, it raises the
      same error over all of them. */
  lemma {:induction false} RaisedErrorPersists(results: seq<Result<real>>, k: nat)
    requires k <= |results|
    requires RunningMax(results[..k]).Failure?
    ensures RunningMax(results) == RunningMax(results[..k])
    decreases |results| - k
  {
    if k < |results| {
      assert results[..k + 1][..k] == results[..k];
      RaisedErrorPersists(results, k + 1);
    } else {
      assert results[..k] == results;
    }
  }

  /** The running maximum raises exactly when some result raised. */
  lemma {:induction false} RunningMaxFails(results: seq<Result<real>>)
    ensures RunningMax(results).Failure? <==> exists k :: 0 <= k < |results| && results[k].Failure?
    decreases |results|
  {
    if results != [] {
      var n := |results| - 1;
      var front := results[..n];
      RunningMaxFails(front);
      assert forall k :: 0 <= k < n ==> front[k] == results[k];
    }
  }

  /** Otherwise it is at least 0, bounds every result, and is one of them
      unless it is the starting 0. */
  lemma {:induction false} RunningMaxIsLargest(results: seq<Result<real>>)
    requires RunningMax(results).Success?
    ensures var m := RunningMax(results).value;
      && m >= 0.0
      && (forall k :: 0 <= k < |results| ==> results[k].Success? && results[k].value <= m)
      && (m == 0.0 || exists k :: 0 <= k < |results| && results[k] == Success(m))
    decreases |results|
  {
    if results != [] {
      var n := |results| - 1;
      var front := results[..n];
      RunningMaxIsLargest(front);
      assert forall k :: 0 <= k < n ==> front[k] == results[k];
      var acc := RunningMax(front).value;
      if results[n].value <= acc && acc != 0.0 {
        var k :| 0 <= k < n && front[k] == Success(acc);
        assert results[k] == Success(acc);
      }
    }
  }

  /** `max_diameter` of a multipolygon raises exactly when one of its
      polygons' rings has fewer than two vertices; otherwise it is the
      largest of the per-polygon diameters, or 0 for an empty multipolygon. */
  lemma MultiPolygonDiameterIsLargestPart(geoms: seq<PolygonShape>, dist: (Coord, Coord) -> real)
    ensures DiameterOf(MultiPolygon(geoms), dist).Failure? <==> exists k :: 0 <= k < |geoms| && |geoms[k].exterior| < 2
    ensures DiameterOf(MultiPolygon(geoms), dist).Success? ==>
      var m := DiameterOf(MultiPolygon(geoms), dist).value;
      && m >= 0.0
      && (forall k :: 0 <= k < |geoms| ==>
            CalculateMaxDistance(geoms[k].exterior, dist).Success? && CalculateMaxDistance(geoms[k].exterior, dist).value <= m)
      && (m == 0.0 || exists k :: 0 <= k < |geoms| && CalculateMaxDistance(geoms[k].exterior, dist) == Success(m))
  {
    var results := PartResults(geoms, dist);
    RunningMaxFails(results);
    if RunningMax(results).Success? {
      RunningMaxIsLargest(results);
    }
  }

  /** A non-zero multipolygon diameter is the distance between two vertices
      of one and the same polygon: spans across polygons never count. */
  lemma MultiPolygonDiameterWithinOnePolygon(geoms: seq<PolygonShape>, dist: (Coord, Coord) -> real)
    requires DiameterOf(MultiPolygon(geoms), dist).Success?
    requires DiameterOf(MultiPolygon(geoms), dist).value != 0.0
    ensures exists k, i, j ::
      && 0 <= k < |geoms| && 0 <= i < j < |geoms[k].exterior|
      && DiameterOf(MultiPolygon(geoms), dist).value == dist(geoms[k].exterior[i], geoms[k].exterior[j])
  {
    var m := DiameterOf(MultiPolygon(geoms), dist).value;
    MultiPolygonDiameterIsLargestPart(geoms, dist);
    var k :| 0 <= k < |geoms| && CalculateMaxDistance(geoms[k].exterior, dist) == Success(m);
    CalculateMaxDistanceIsLargestPair(geoms[k].exterior, dist);
    var i, j :| 0 <= i < j < |geoms[k].exterior| && m == dist(geoms[k].exterior[i], geoms[k].exterior[j]);
  }

  /** Shapely's `Point.distance` as a distance function, for a given square
      root. It is symmetric, so the order `combinations` puts a pair in does
      not matter; with a true root it is non-negative and separates points. */
  function PointDistance(sqrt: real -> real): (dist: (Coord, Coord) -> real)
    ensures forall p, q :: dist(p, q) == dist(q, p)
    ensures IsSquareRoot(sqrt) ==> forall p, q :: 0.0 <= dist(p, q) && (dist(p, q) == 0.0 <==> p == q)
  {
    EuclideanSymmetric(sqrt);
    (p: Coord, q: Coord) => EuclideanDistance(p, q, sqrt)
  }

  /** The closed exterior ring of the square with side `s` and lower-left
      corner `(x, y)`. */
  function SquareRing(x: real, y: real, s: real): seq<Coord> {
    [Coord(x, y), Coord(x + s, y), Coord(x + s, y + s), Coord(x, y + s), Coord(x, y)]
  }

  /** Two points of one box of side `s` are at most its diagonal,
      `s * sqrt(2)`, apart. */
  lemma WithinSquareBox(p: Coord, q: Coord, x: real, y: real, s: real, sqrt: real -> real)
    requires IsSquareRoot(sqrt)
    requires x <= p.x <= x + s && y <= p.y <= y + s
    requires x <= q.x <= x + s && y <= q.y <= y + s
    ensures EuclideanDistance(p, q, sqrt) <= s * sqrt(2.0)
  {
    var dx, dy := p.x - q.x, p.y - q.y;
    SquareWithinBound(dx, s);
    SquareWithinBound(dy, s);
    SquareNonNegative(dx);
    SquareNonNegative(dy);
    SquareNonNegative(s);
    RootMonotone(sqrt, Sq(dx) + Sq(dy), 2.0 * Sq(s));
    RootScale(sqrt, 2.0, s);
  }

  /** A bound on every pair distance that one pair attains is what
      `calculate_max_distance` returns. */
  lemma AttainedBoundIsMaxDistance(points: seq<Coord>, dist: (Coord, Coord) -> real,
                                                      bound: real, i0: nat, j0: nat)
    requires i0 < j0 < |points|
    requires forall i, j :: 0 <= i < j < |points| ==> dist(points[i], points[j]) <= bound
    requires dist(points[i0], points[j0]) == bound
    ensures CalculateMaxDistance(points, dist) == Success(bound)
  {
    var m := MaxPairDistance(points, dist);
    assert dist(points[i0], points[j0]) <= m;
    var i, j :| 0 <= i < j < |points| && m == dist(points[i], points[j]);
    assert m <= bound;
  }

  /** Every vertex pair of a square of side `s` is at most the diagonal apart. */
  lemma SquarePairsWithinDiagonal(x: real, y: real, s: real, sqrt: real -> real)
    requires IsSquareRoot(sqrt)
    requires 0.0 <= s
    ensures var pts := SquareRing(x, y, s);
      forall i, j :: 0 <= i < j < |pts| ==> PointDistance(sqrt)(pts[i], pts[j]) <= s * sqrt(2.0)
  {
    var pts, dist := SquareRing(x, y, s), PointDistance(sqrt);
    assert forall i :: 0 <= i < |pts| ==> x <= pts[i].x <= x + s && y <= pts[i].y <= y + s;
    forall i, j | 0 <= i < j < |pts|
      ensures dist(pts[i], pts[j]) <= s * sqrt(2.0)
    {
      WithinSquareBox(pts[i], pts[j], x, y, s, sqrt);
    }
  }

  /** Opposite corners of a square of side `s` are `s * sqrt(2)` apart. */
  lemma SquareDiagonal(x: real, y: real, s: real, sqrt: real -> real)
    requires IsSquareRoot(sqrt)
    requires 0.0 <= s
    ensures EuclideanDistance(Coord(x, y), Coord(x + s, y + s), sqrt) == s * sqrt(2.0)
  {
    SquareOfNegation(s);
    calc {
      EuclideanDistance(Coord(x, y), Coord(x + s, y + s), sqrt);
    == sqrt(Sq(-s) + Sq(-s));
    == sqrt(2.0 * Sq(s));
    == { RootScale(sqrt, 2.0, s); }
      s * sqrt(2.0);
    }
  }

  /** The diameter of a square of side `s` is its diagonal, `s * sqrt(2)`. */
  lemma SquareDiameter(x: real, y: real, s: real, sqrt: real -> real)
    requires IsSquareRoot(sqrt)
    requires 0.0 <= s
    ensures CalculateMaxDistance(SquareRing(x, y, s), PointDistance(sqrt)) == Success(s * sqrt(2.0))
  {
    var pts, dist := SquareRing(x, y, s), PointDistance(sqrt);
    SquarePairsWithinDiagonal(x, y, s, sqrt);
    SquareDiagonal(x, y, s, sqrt);
    assert dist(pts[0], pts[2]) == s * sqrt(2.0);
    AttainedBoundIsMaxDistance(pts, dist, s * sqrt(2.0), 0, 2);
  }

  /** Two polygons of the same diameter give a multipolygon of that diameter. */
  lemma TwoEqualPartsDiameter(p0: PolygonShape, p1: PolygonShape, dist: (Coord, Coord) -> real, v: real)
    requires v >= 0.0
    requires CalculateMaxDistance(p0.exterior, dist) == Success(v)
    requires CalculateMaxDistance(p1.exterior, dist) == Success(v)
    ensures DiameterOf(MultiPolygon([p0, p1]), dist) == Success(v)
  {
    var results := PartResults([p0, p1], dist);
    assert results[..1][..0] == [];
    assert RunningMax(results[..1]) == Success(v);
    assert results[..2] == results;
  }

  /** A multipolygon of two squares of side `s` has one square's diagonal,
      `s * sqrt(2)`, as its diameter, wherever the squares lie ... */
  lemma TwoSquaresDiameter(a: Coord, b: Coord, s: real, sqrt: real -> real)
    requires IsSquareRoot(sqrt)
    requires 0.0 <= s
    ensures var parts := [PolygonShape(SquareRing(a.x, a.y, s), []), PolygonShape(SquareRing(b.x, b.y, s), [])];
      DiameterOf(MultiPolygon(parts), PointDistance(sqrt)) == Success(s * sqrt(2.0))
  {
    SquareDiameter(a.x, a.y, s, sqrt);
    SquareDiameter(b.x, b.y, s, sqrt);
    var diagonal := s * sqrt(2.0);
    assert 0.0 <= diagonal by {
      calc { diagonal; == s * sqrt(2.0); >= s * 0.0; }
    }
    TwoEqualPartsDiameter(PolygonShape(SquareRing(a.x, a.y, s), []), PolygonShape(SquareRing(b.x, b.y, s), []),
                          PointDistance(sqrt), diagonal);
  }

  /** Points two or more sides apart across are further apart than the
      diagonal of a square of that side. */
  lemma CornersBeyondDiagonal(a: Coord, b: Coord, s: real, sqrt: real -> real)
    requires IsSquareRoot(sqrt)
    requires 0.0 < s && b.x - a.x >= 2.0 * s
    ensures s * sqrt(2.0) < EuclideanDistance(a, b, sqrt)
  {
    var dx, dy := a.x - b.x, a.y - b.y;
    SquareOfNegation(b.x - a.x);
    if b.x - a.x > 2.0 * s {
      SquareIncreasing(2.0 * s, b.x - a.x);
    }
    SquareOfProduct(2.0, s);
    SquarePositive(s);
    SquareNonNegative(dy);
    assert Sq(dx) + Sq(dy) > 2.0 * Sq(s);
    RootMonotone(sqrt, Sq(dx) + Sq(dy), 2.0 * Sq(s));
    RootScale(sqrt, 2.0, s);
  }

  /** ... so when the squares are two or more sides apart the span between
      them is larger than the diameter the multipolygon reports. */
  lemma SpanBetweenDistantSquares(a: Coord, b: Coord, s: real, sqrt: real -> real)
    requires IsSquareRoot(sqrt)
    requires 0.0 < s && b.x - a.x >= 2.0 * s
    ensures var parts := [PolygonShape(SquareRing(a.x, a.y, s), []), PolygonShape(SquareRing(b.x, b.y, s), [])];
      var r := DiameterOf(MultiPolygon(parts), PointDistance(sqrt));
      r.Success? && r.value < EuclideanDistance(a, b, sqrt)
  {
    TwoSquaresDiameter(a, b, s, sqrt);
    CornersBeyondDiagonal(a, b, s, sqrt);
  }
}
