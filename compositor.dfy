/** The per-feature raster of `create_fuzzy_viewshed`: the membership of
    every cell's distance, multiplied by the binary line-of-sight mask and
    the optional maximum-distance mask, with NaN outside that radius. */
module Compositor {
  import opened Results
  import opened Raster
  import opened Fuzzy

  /** The settings of a calculator that the per-feature computation reads:
      `b1` (metres of full confidence), the observer height (passed only to
      the external viewshed tool) and the optional maximum distance. */
  datatype Config = Config(b1: real, observerHeight: real, maxDistance: Option<real>)

  /** A cell of the output raster: a number, or the NaN that the raster
      declares as nodata. */
  datatype Cell = Value(v: real) | NoData

  /** `(viewshed > 0)`: the line-of-sight mask read off the raw viewshed raster. */
  function VisibilityMask(raw: seq<seq<real>>): (vis: seq<seq<bool>>)
    ensures SameShape(vis, raw)
    ensures forall i, j :: 0 <= i < |raw| && 0 <= j < |raw[i]| ==> (vis[i][j] <==> raw[i][j] > 0.0)
  {
    seq(|raw|, i requires 0 <= i < |raw| =>
      seq(|raw[i]|, j requires 0 <= j < |raw[i]| => raw[i][j] > 0.0))
  }

  /** `distances <= max_distance` when a maximum distance is set, all true otherwise. */
  function ValidityMask(distances: seq<seq<real>>, maxDistance: Option<real>): (mask: seq<seq<bool>>)
    ensures SameShape(mask, distances)
    ensures forall i, j :: 0 <= i < |distances| && 0 <= j < |distances[i]| ==>
      (mask[i][j] <==> maxDistance.None? || distances[i][j] <= maxDistance.value)
  {
    seq(|distances|, i requires 0 <= i < |distances| =>
      seq(|distances[i]|, j requires 0 <= j < |distances[i]| =>
        match maxDistance
        case None => true
        case Some(limit) => distances[i][j] <= limit))
  }

  /** The membership `np.where` of `create_fuzzy_viewshed`: membership of every cell's distance. */
  function MembershipGrid(distances: seq<seq<real>>, b1: real, b2: real): (m: seq<seq<real>>)
    requires b2 > 0.0
    ensures SameShape(m, distances)
    ensures forall i, j :: 0 <= i < |distances| && 0 <= j < |distances[i]| ==>
      m[i][j] == Membership(distances[i][j], b1, b2)
  {
    seq(|distances|, i requires 0 <= i < |distances| =>
      seq(|distances[i]|, j requires 0 <= j < |distances[i]| => Membership(distances[i][j], b1, b2)))
  }

  /** A boolean as the 0/1 factor it becomes in a float product. */
  function Indicator(b: bool): real { if b then 1.0 else 0.0 }

  /** The masking step of `create_fuzzy_viewshed`: `membership * viewshed * mask`, then NaN wherever the mask
      is false. A cell beyond the maximum distance is nodata whatever its
      visibility and membership; inside it, a visible cell carries its
      membership and a hidden one exactly 0. */
  function Composite(distances: seq<seq<real>>, visible: seq<seq<bool>>, b1: real, b2: real,
                     maxDistance: Option<real>): (out: seq<seq<Cell>>)
    requires b2 > 0.0
    requires SameShape(visible, distances)
    ensures SameShape(out, distances)
    ensures forall i, j :: 0 <= i < |distances| && 0 <= j < |distances[i]| ==>
      out[i][j] == if maxDistance.Some? && distances[i][j] > maxDistance.value then NoData
                   else Value(if visible[i][j] then Membership(distances[i][j], b1, b2) else 0.0)
  {
    var m := MembershipGrid(distances, b1, b2);
    var mask := ValidityMask(distances, maxDistance);
    seq(|distances|, i requires 0 <= i < |distances| =>
      seq(|distances[i]|, j requires 0 <= j < |distances[i]| =>
        var product := m[i][j] * Indicator(visible[i][j]) * Indicator(mask[i][j]);
        if mask[i][j] then Value(product) else NoData))
  }

  /** Every numeric output cell lies in [0, 1], and it is 0 only where the
      cell is not visible. */
  lemma OutputInUnitInterval(distances: seq<seq<real>>, visible: seq<seq<bool>>, b1: real, b2: real,
                                                maxDistance: Option<real>, i: nat, j: nat)
    requires b2 > 0.0
    requires SameShape(visible, distances)
    requires i < |distances| && j < |distances[i]|
    ensures Composite(distances, visible, b1, b2, maxDistance)[i][j].Value? ==>
      var v := Composite(distances, visible, b1, b2, maxDistance)[i][j].v;
      0.0 <= v <= 1.0 && (v == 0.0 <==> !visible[i][j])
  {
  }

  /** Without a maximum distance no output cell is nodata. */
  lemma UnboundedHasNoNoData(distances: seq<seq<real>>, visible: seq<seq<bool>>, b1: real, b2: real)
    requires b2 > 0.0
    requires SameShape(visible, distances)
    ensures forall i, j :: 0 <= i < |distances| && 0 <= j < |distances[i]| ==>
      Composite(distances, visible, b1, b2, None)[i][j].Value?
  {
  }

  /** The cut-off only blanks cells: inside the radius the output equals the
      output computed with no maximum distance. */
  lemma CutoffKeepsInsideValues(distances: seq<seq<real>>, visible: seq<seq<bool>>, b1: real, b2: real,
                                                   limit: real, i: nat, j: nat)
    requires b2 > 0.0
    requires SameShape(visible, distances)
    requires i < |distances| && j < |distances[i]|
    ensures distances[i][j] <= limit ==>
      Composite(distances, visible, b1, b2, Some(limit))[i][j] == Composite(distances, visible, b1, b2, None)[i][j]
    ensures distances[i][j] > limit ==>
      Composite(distances, visible, b1, b2, Some(limit))[i][j] == NoData
  {
  }

  /** `create_fuzzy_viewshed` for one feature at `(x, y)` of apparent size
      `size`: `b2` from the size, the distance map over the DEM's grid, the
      mask from the viewshed raster the external tool produced, and the
      composite. A viewshed raster whose shape differs from the DEM's makes
      the element-wise product raise. */
  function CreateFuzzyViewshed(cfg: Config, dem: GridModel, x: real, y: real, size: real,
                               viewshed: seq<seq<real>>, sqrt: real -> real): (r: Result<seq<seq<Cell>>>)
    ensures r.Failure? <==> !IsGrid(viewshed, dem.height, dem.width)
    ensures r.Failure? ==> r.error == ShapeMismatch
    ensures r.Success? ==>
      var d := DistanceMap(dem, x, y, sqrt);
      var b2 := CalculateB2(size, cfg.b1, DistanceMultiplier);
      && IsGrid(r.value, dem.height, dem.width)
      && forall i, j :: 0 <= i < dem.height && 0 <= j < dem.width ==>
        r.value[i][j] == if cfg.maxDistance.Some? && d[i][j] > cfg.maxDistance.value then NoData
                         else Value(if viewshed[i][j] > 0.0 then Membership(d[i][j], cfg.b1, b2) else 0.0)
  {
    var b2 := CalculateB2(size, cfg.b1, DistanceMultiplier);
    var distances := DistanceMap(dem, x, y, sqrt);
    if !IsGrid(viewshed, dem.height, dem.width) then Failure(ShapeMismatch)
    else Success(Composite(distances, VisibilityMask(viewshed), cfg.b1, b2, cfg.maxDistance))
  }

  /** A visible cell inside both the maximum distance and the `b1` radius
      gets full confidence, 1. */
  lemma VisibleNearCellIsCertain(cfg: Config, dem: GridModel, x: real, y: real, size: real,
                                                    viewshed: seq<seq<real>>, sqrt: real -> real, i: nat, j: nat)
    requires IsGrid(viewshed, dem.height, dem.width)
    requires i < dem.height && j < dem.width
    requires viewshed[i][j] > 0.0
    requires DistanceMap(dem, x, y, sqrt)[i][j] <= cfg.b1
    requires cfg.maxDistance.None? || DistanceMap(dem, x, y, sqrt)[i][j] <= cfg.maxDistance.value
    ensures CreateFuzzyViewshed(cfg, dem, x, y, size, viewshed, sqrt).Success?
    ensures CreateFuzzyViewshed(cfg, dem, x, y, size, viewshed, sqrt).value[i][j] == Value(1.0)
  {
  }
}
