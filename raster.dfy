/** The DEM's grid: its georeferencing, the world coordinates that
    `np.indices` and the affine origin give every cell, and the Euclidean
    distance map from one observer point. */
module Raster {
  import opened Reals

  /** Shape and georeferencing of the DEM as rasterio reports them:
      `height` rows and `width` columns, the resolution `src.res` and the
      top-left corner `(bounds.left, bounds.top)`. */
  datatype GridModel = GridModel(height: nat, width: nat, resX: real, resY: real, left: real, top: real)

  /** `g` is a dense grid of `rows` rows, each `cols` cells long. */
  predicate IsGrid<T>(g: seq<seq<T>>, rows: nat, cols: nat) {
    |g| == rows && forall i :: 0 <= i < |g| ==> |g[i]| == cols
  }

  /** Two grids with the same number of rows and the same row lengths. */
  predicate SameShape<T, U>(a: seq<seq<T>>, b: seq<seq<U>>) {
    |a| == |b| && forall i :: 0 <= i < |a| ==> |a[i]| == |b[i]|
  }

  /** `x_coords = cols * res_x + left`, over the column indices of `np.indices`. */
  function XCoords(m: GridModel): (xs: seq<seq<real>>)
    ensures IsGrid(xs, m.height, m.width)
  {
    seq(m.height, i requires 0 <= i < m.height =>
      seq(m.width, j requires 0 <= j < m.width => (j as real) * m.resX + m.left))
  }

  /** `y_coords = rows * -res_y + top`, over the row indices of `np.indices`. */
  function YCoords(m: GridModel): (ys: seq<seq<real>>)
    ensures IsGrid(ys, m.height, m.width)
  {
    seq(m.height, i requires 0 <= i < m.height =>
      seq(m.width, j requires 0 <= j < m.width => (i as real) * -m.resY + m.top))
  }

  /** Squared planar offset of cell `(i, j)` from `(x0, y0)`: the argument of the square root. */
  function SquaredOffset(m: GridModel, x0: real, y0: real, i: nat, j: nat): (s: real)
    requires i < m.height && j < m.width
    ensures s >= 0.0
  {
    SquareNonNegative(XCoords(m)[i][j] - x0);
    SquareNonNegative(YCoords(m)[i][j] - y0);
    Sq(XCoords(m)[i][j] - x0) + Sq(YCoords(m)[i][j] - y0)
  }

  /** The Euclidean distance map of `create_euclidean_distance_map`: every cell
      holds `sqrt((x - x0)^2 + (y - y0)^2)` for its coordinates `(x, y)`. The
      square root is `np.sqrt`, given as the parameter `sqrt`. */
  function DistanceMap(m: GridModel, x0: real, y0: real, sqrt: real -> real): (d: seq<seq<real>>)
    ensures IsGrid(d, m.height, m.width)
    ensures forall i, j :: 0 <= i < m.height && 0 <= j < m.width ==>
      d[i][j] == sqrt(SquaredOffset(m, x0, y0, i, j))
  {
    var xs, ys := XCoords(m), YCoords(m);
    seq(m.height, i requires 0 <= i < m.height =>
      seq(m.width, j requires 0 <= j < m.width => sqrt(Sq(xs[i][j] - x0) + Sq(ys[i][j] - y0))))
  }

  /** The coordinates are those of each cell's top-left corner: cell (0, 0)
      sits on the raster's corner, x depends on the column only and grows by
      `resX` per column, y depends on the row only and falls by `resY` per row. */
  lemma CellCornerCoordinates(m: GridModel, i: nat, j: nat)
    requires i < m.height && j < m.width
    ensures XCoords(m)[i][j] == (j as real) * m.resX + m.left
    ensures YCoords(m)[i][j] == m.top - (i as real) * m.resY
    ensures XCoords(m)[i][j] == XCoords(m)[0][j] && YCoords(m)[i][j] == YCoords(m)[i][0]
    ensures XCoords(m)[0][0] == m.left && YCoords(m)[0][0] == m.top
    ensures j + 1 < m.width ==> XCoords(m)[i][j + 1] - XCoords(m)[i][j] == m.resX
    ensures i + 1 < m.height ==> YCoords(m)[i + 1][j] - YCoords(m)[i][j] == -m.resY
  {
  }

  /** Every distance is non-negative, squares to the planar offset, and is 0
      exactly at the cell whose corner coincides with the observer point. */
  lemma DistanceMapValues(m: GridModel, x0: real, y0: real, sqrt: real -> real, i: nat, j: nat)
    requires IsSquareRoot(sqrt)
    requires i < m.height && j < m.width
    ensures var d := DistanceMap(m, x0, y0, sqrt)[i][j];
      && d >= 0.0
      && Sq(d) == Sq(XCoords(m)[i][j] - x0) + Sq(YCoords(m)[i][j] - y0)
      && (d == 0.0 <==> XCoords(m)[i][j] == x0 && YCoords(m)[i][j] == y0)
  {
    var s := SquaredOffset(m, x0, y0, i, j);
    var d := DistanceMap(m, x0, y0, sqrt)[i][j];
    assert d == sqrt(s);
    assert d >= 0.0 && Sq(d) == s;
    if d != 0.0 {
      SquarePositive(d);
    }
    SumOfSquaresZero(XCoords(m)[i][j] - x0, YCoords(m)[i][j] - y0);
  }

  /** The distance map orders cells as their planar offsets do, so the cell
      nearest the observer holds the least distance. */
  lemma DistanceOrderIsNearness(m: GridModel, x0: real, y0: real, sqrt: real -> real,
                                i1: nat, j1: nat, i2: nat, j2: nat)
    requires IsSquareRoot(sqrt)
    requires i1 < m.height && j1 < m.width && i2 < m.height && j2 < m.width
    ensures DistanceMap(m, x0, y0, sqrt)[i1][j1] <= DistanceMap(m, x0, y0, sqrt)[i2][j2]
        <==> SquaredOffset(m, x0, y0, i1, j1) <= SquaredOffset(m, x0, y0, i2, j2)
  {
    RootMonotone(sqrt, SquaredOffset(m, x0, y0, i1, j1), SquaredOffset(m, x0, y0, i2, j2));
  }
}
