# Fuzzy viewshed — a verified model of its computational core

The fuzzy viewshed calculator turns a digital elevation model (DEM) and a
set of observed features (points, polygons, multipolygons) into one raster
per feature. Each cell of that raster holds a confidence in [0, 1] that the
feature is visible from the cell. The confidence combines three things:

- a binary line-of-sight mask, computed by an external viewshed tool;
- the distance from the cell to the feature;
- a fuzzy decay whose spread grows with the feature's apparent size.

This Dafny project models the core of `src/fuzzy_viewshed_calculator.py`:

- **Raster** (`raster.dfy`) — the DEM grid (`GridModel`), the world
  coordinates that `np.indices` and the raster's top-left corner give every
  cell, and the Euclidean distance map from one observer point.
- **Fuzzy** (`fuzzy.dfy`) — `calculate_b2` and the membership function
  `1` up to `b1`, then `1 / (1 + 2((d - b1)/b2)^2)`.
- **Compositor** (`compositor.dfy`) — the line-of-sight and maximum-distance
  masks, their product with the membership grid, the NaN (nodata) cells
  outside the maximum distance, and `create_fuzzy_viewshed` as a whole.
- **Extent** (`extent.dfy`) — `calculate_max_distance` (the largest
  vertex-pair distance of a ring) and `max_diameter`, with its running
  maximum loop over the polygons of a multipolygon, as an imperative method.
- **Feature** (`feature.dfy`) — the body of the loop in
  `process_vector_file`: size from `max_diameter`, then the fuzzy viewshed
  at the centroid.
- **Reals**, **Results** (`reals.dfy`, `results.dfy`) — squares, maxima,
  what it means for a function to be a square root, and the error values.

The square root (`np.sqrt`, and shapely's `Point.distance`) is a parameter
`sqrt: real -> real`. Facts about maxima and about which pair attains them
hold for any such function. Facts that need a true root assume
`IsSquareRoot(sqrt)`. Python's `max()` over an empty sequence raises; this
is the error `EmptyMaxArgument` of a `Result`. Numpy raises on an
element-wise product of rasters with different shapes; this is
`ShapeMismatch`.

Cell coordinates follow the code. `x = col * res_x + left` and
`y = top - row * res_y` are the coordinates of each cell's top-left
corner, not of its centre. A cell-centre reading would add half a cell
to each offset; the code adds none, and the model follows the code.

## Model

| member | source | states |
|---|---|---|
| Raster.XCoords | src/fuzzy_viewshed_calculator.py:29-30 | a full `height` × `width` grid of x coordinates |
| Raster.YCoords | src/fuzzy_viewshed_calculator.py:29-31 | a full `height` × `width` grid of y coordinates |
| Raster.CellCornerCoordinates | src/fuzzy_viewshed_calculator.py:29-31 | cell (0,0) is the raster's top-left corner; x depends only on the column and grows by `res_x` per column; y depends only on the row and falls by `res_y` per row |
| Raster.DistanceMap | src/fuzzy_viewshed_calculator.py:33 | the distance map has the DEM's shape, and each cell is the root of its squared offset from the observer |
| Raster.DistanceMapValues | src/fuzzy_viewshed_calculator.py:33 | with a true root, every distance is non-negative, squares back to the squared offset, and is 0 exactly at the observer's own coordinates |
| Raster.DistanceOrderIsNearness | src/fuzzy_viewshed_calculator.py:29-33 | one cell's distance is at most another's exactly when it is geometrically at least as near, so the minimum-valued cell is the nearest cell |
| Fuzzy.CalculateB2 | src/fuzzy_viewshed_calculator.py:40-45 | `b2 >= 1`; it equals `width * multiplier - b1` exactly when that is at least 1, and is 1 otherwise |
| Fuzzy.ZeroWidthGivesUnitB2 | src/fuzzy_viewshed_calculator.py:42-43 | a zero-width feature gets `b2 = 1` whenever `b1 >= -1` |
| Fuzzy.B2GrowsWithWidth | src/fuzzy_viewshed_calculator.py:42-43 | a wider object never gets a smaller `b2` |
| Fuzzy.Membership | src/fuzzy_viewshed_calculator.py:80 | membership lies in (0, 1], and is exactly 1 when the distance is at most `b1` |
| Fuzzy.MembershipDecreasing | src/fuzzy_viewshed_calculator.py:80 | membership never grows with distance, and strictly falls once past `b1` |
| Fuzzy.MembershipOneB2Beyond | src/fuzzy_viewshed_calculator.py:80 | at `b1 + b2` the membership is exactly 1/3 |
| Fuzzy.MembershipNearB1 | src/fuzzy_viewshed_calculator.py:80 | just past `b1`, the gap to 1 is below `2(d - b1)/b2` |
| Fuzzy.MembershipContinuousAtB1 | src/fuzzy_viewshed_calculator.py:80 | for every ε > 0 there is a δ > 0 with every distance below `b1 + δ` within ε of 1: the two branches meet without a jump |
| Compositor.VisibilityMask | src/fuzzy_viewshed_calculator.py:71 | a cell is visible exactly when the raw viewshed value is positive |
| Compositor.ValidityMask | src/fuzzy_viewshed_calculator.py:74-78 | with no maximum distance every cell is valid; otherwise exactly the cells with distance at most the maximum are |
| Compositor.MembershipGrid | src/fuzzy_viewshed_calculator.py:80 | the membership grid has the distance grid's shape and holds each cell's membership |
| Compositor.Composite | src/fuzzy_viewshed_calculator.py:74-84 | a cell beyond the maximum distance is nodata; inside it, a visible cell carries its membership and a hidden cell exactly 0 |
| Compositor.OutputInUnitInterval | src/fuzzy_viewshed_calculator.py:80-84 | every numeric output lies in [0, 1] and is 0 exactly where the cell is hidden |
| Compositor.UnboundedHasNoNoData | src/fuzzy_viewshed_calculator.py:77-78 | without a maximum distance no cell is nodata |
| Compositor.CutoffKeepsInsideValues | src/fuzzy_viewshed_calculator.py:75-84 | inside the radius the maximum distance changes nothing; beyond it the cell is nodata |
| Compositor.CreateFuzzyViewshed | src/fuzzy_viewshed_calculator.py:47-84 | fails (shape mismatch) exactly when the viewshed raster does not match the DEM's shape; otherwise gives every DEM cell the composite of its distance, its visibility and `b2` from the size |
| Compositor.VisibleNearCellIsCertain | src/fuzzy_viewshed_calculator.py:80-84 | a visible cell within `b1`, and within the maximum distance, gets exactly 1 |
| Extent.EuclideanDistance | src/fuzzy_viewshed_calculator.py:110 | `Point(p).distance(Point(q))`; with a true root it is non-negative and 0 exactly between equal points |
| Extent.PointDistance | src/fuzzy_viewshed_calculator.py:110 | the distance used for pairs is symmetric, so the order of a pair in `combinations` does not matter; with a true root it is non-negative and 0 exactly between equal points |
| Extent.MaxDistanceTo | src/fuzzy_viewshed_calculator.py:110 | the largest distance from a point to the ones before it bounds them all and is attained by one |
| Extent.MaxPairDistance | src/fuzzy_viewshed_calculator.py:110 | over at least two points, the result bounds every pair `i < j` of `combinations(points, 2)` and one such pair attains it |
| Extent.PairMaxStepBounds | src/fuzzy_viewshed_calculator.py:110 | a new last point keeps the maximum an upper bound of every pair |
| Extent.PairMaxStepAttained | src/fuzzy_viewshed_calculator.py:110 | a new last point keeps the maximum attained by some pair |
| Extent.CalculateMaxDistance | src/fuzzy_viewshed_calculator.py:108-110 | raises exactly when the ring has fewer than two vertices, with the error of `max()` on an empty sequence |
| Extent.CalculateMaxDistanceIsLargestPair | src/fuzzy_viewshed_calculator.py:108-110 | with two or more vertices, the result is the largest vertex-pair distance: it bounds every pair and one pair attains it |
| Extent.PartResults | src/fuzzy_viewshed_calculator.py:100-102 | one result per polygon of the multipolygon, in order, each that polygon's `calculate_max_distance` |
| Extent.RunningMax | src/fuzzy_viewshed_calculator.py:95-105 | the multipolygon loop starts at 0, keeps the old value on a tie and re-raises the first error; a success is never below 0 and a failure carries the error of one of the per-polygon results |
| Extent.DiameterOf | src/fuzzy_viewshed_calculator.py:93-105 | what `max_diameter` returns or raises: the only possible error is `max()` on a ring without a vertex pair, and a multipolygon's value is never below 0 |
| Extent.MaxDiameter | src/fuzzy_viewshed_calculator.py:93-105 | the loop returns what the running-maximum definition gives; a point or line gets 0 |
| Extent.RaisedErrorPersists | src/fuzzy_viewshed_calculator.py:100-104 | once one polygon has raised, the whole loop raises that error |
| Extent.RunningMaxFails | src/fuzzy_viewshed_calculator.py:95-105 | the running maximum raises exactly when some polygon's result raised |
| Extent.RunningMaxIsLargest | src/fuzzy_viewshed_calculator.py:95-105 | otherwise the running maximum is non-negative, bounds every result, and is one of them unless it is the starting 0 |
| Extent.MultiPolygonDiameterIsLargestPart | src/fuzzy_viewshed_calculator.py:99-105 | a multipolygon's diameter raises exactly when one of its rings has fewer than two vertices; otherwise it is the largest per-polygon diameter, or 0 |
| Extent.MultiPolygonDiameterWithinOnePolygon | src/fuzzy_viewshed_calculator.py:99-105 | a non-zero multipolygon diameter is the distance between two vertices of the same polygon |
| Extent.WithinSquareBox | src/fuzzy_viewshed_calculator.py:110 | two points of one box of side `s` are at most `s * sqrt(2)` apart |
| Extent.AttainedBoundIsMaxDistance | src/fuzzy_viewshed_calculator.py:108-110 | an upper bound of every pair distance that one pair attains is exactly what `calculate_max_distance` returns |
| Extent.SquarePairsWithinDiagonal | src/fuzzy_viewshed_calculator.py:110 | every vertex pair of a closed square ring of side `s` is at most `s * sqrt(2)` apart |
| Extent.SquareDiagonal | src/fuzzy_viewshed_calculator.py:110 | opposite corners of a square of side `s` are `s * sqrt(2)` apart |
| Extent.SquareDiameter | src/fuzzy_viewshed_calculator.py:96-98 | a square of side `s`, anywhere, has diameter `s * sqrt(2)` |
| Extent.TwoEqualPartsDiameter | src/fuzzy_viewshed_calculator.py:99-105 | two polygons with the same non-negative diameter give a multipolygon with that diameter |
| Extent.TwoSquaresDiameter | src/fuzzy_viewshed_calculator.py:99-105 | two squares of side `s`, wherever they lie, give a multipolygon diameter of `s * sqrt(2)` (for unit squares, `sqrt(2)`) |
| Extent.CornersBeyondDiagonal | src/fuzzy_viewshed_calculator.py:110 | points at least `2s` apart across are further apart than `s * sqrt(2)`, for `s > 0` |
| Extent.SpanBetweenDistantSquares | src/fuzzy_viewshed_calculator.py:99-105 | for two squares of side `s > 0` whose corners are at least `2s` apart across, the reported multipolygon diameter succeeds and is strictly less than the span between those corners |
| Feature.FeatureViewshed | src/fuzzy_viewshed_calculator.py:116-121 | a feature fails exactly when its diameter raises or its viewshed raster has the wrong shape, and the error says which: `EmptyMaxArgument` for the first, `ShapeMismatch` for the second |
| Feature.ProcessFeature | src/fuzzy_viewshed_calculator.py:115-121 | one feature gives a raster of the DEM's shape, or fails exactly when its geometry's diameter raises or the viewshed raster has the wrong shape |
| Feature.PointFeatureDecaysWithUnitB2 | src/fuzzy_viewshed_calculator.py:116-121 | for a point feature with `b1 >= -1`, every visible cell inside the maximum distance carries `Membership(d, b1, 1)` |
| Feature.DegenerateRingFails | src/fuzzy_viewshed_calculator.py:96-98 | a polygon whose exterior ring has fewer than two vertices makes the feature fail with the `max()` error |

## Left out

- File and raster I/O (`rasterio`, `geopandas`, reading the vector file, writing GeoTIFFs, the `EPSG:25830` point shapefile, temporary directories) and the `print` lines. They are not computation; the rasters are modelled as nested sequences.
- The WhiteboxTools viewshed call (lines 63-68) is a foreign program. The raster it writes is the `viewshed` parameter, and the observer height only reaches that tool.
- The square root is a parameter, so floating-point rounding is not modelled. Reals stand for `float64`/`float32`, and the `float32` cast of the written rasters is not modelled.
- NaN arithmetic is not modelled. A NaN enters only as the nodata value written outside the maximum distance (the `NoData` cell).
- Numpy broadcasting of rasters with different but compatible shapes is not modelled. Any shape difference between the viewshed raster and the DEM is the `ShapeMismatch` failure.
- The feature's centroid comes from shapely and is an input to `Feature.ProcessFeature`. How it is computed is not modelled.
- Interior rings (holes) are carried in `PolygonShape` but ignored, as `max_diameter` reads only `exterior.coords`. Geometries other than points, lines, polygons and multipolygons are not modelled. Any geometry that is not a polygon or multipolygon gets 0, as in the code.
- The iteration over features, the `id` naming of output files, and what happens to later features after one raises are not modelled. `Feature.ProcessFeature` models one iteration.
- `visual_arc` of `calculate_b2` is accepted but never used by the code, so it is not a parameter of `Fuzzy.CalculateB2`.
- The code does not check that `b1` or `max_distance` is positive, or that the observer height is non-negative. The model accepts any values, as the code does. `Fuzzy.Membership` requires `b2 > 0`, which `calculate_b2` always guarantees.
