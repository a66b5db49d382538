/** Orientation: the extracted field is indexed (latitude, longitude). */
module Orientation {
  import opened GpmTypes

  /** `data.T` */
  function Transpose(g: Grid): (r: Grid)
    ensures r.rows == g.cols && r.cols == g.rows
    ensures forall i, j :: 0 <= i < r.rows && 0 <= j < r.cols ==> r.cells[i][j] == g.cells[j][i]
  {
    Raster(g.cols, g.rows,
           seq(g.cols, j requires 0 <= j < g.cols => seq(g.rows, i requires 0 <= i < g.rows => g.cells[i][j])))
  }

  /** Two grids of one shape with the same cells are the same grid. */
  lemma SameCells(a: Grid, b: Grid)
    requires a.rows == b.rows && a.cols == b.cols
    requires forall i, j :: 0 <= i < a.rows && 0 <= j < a.cols ==> a.cells[i][j] == b.cells[i][j]
    ensures a == b
  {
    forall i | 0 <= i < a.rows
      ensures a.cells[i] == b.cells[i]
    {
      assert forall j :: 0 <= j < a.cols ==> a.cells[i][j] == b.cells[i][j];
    }
  }

  lemma TransposeTwice(g: Grid)
    ensures Transpose(Transpose(g)) == g
  {
    SameCells(Transpose(Transpose(g)), g);
  }

  /** `squeeze()` keeps both axes of a field exactly when neither has
      length 1; otherwise the field becomes an array of rank 1 (or 0) holding
      the same values in the same order. */
  predicate SqueezeKeepsRank2(g: Grid)
    ensures SqueezeKeepsRank2(g) <==> SqueezedShape(g) == [g.rows, g.cols]
    ensures !SqueezeKeepsRank2(g) ==> |SqueezedShape(g)| < 2
  {
    g.rows != 1 && g.cols != 1
  }

  /** The shape `squeeze()` leaves: the axis lengths other than 1, in order. */
  function SqueezedShape(g: Grid): seq<nat> {
    (if g.rows == 1 then [] else [g.rows]) + (if g.cols == 1 then [] else [g.cols])
  }

  /** The field after `if data.shape == (len(lons), len(lats)): data = data.T`:
      a (longitude, latitude) field is transposed into (latitude, longitude),
      any other field is left as it is. */
  function Orient(g: Grid, nLats: nat, nLons: nat): (r: Grid)
    ensures g.rows == nLons && g.cols == nLats ==>
      r.rows == nLats && r.cols == nLons &&
      forall i, j :: 0 <= i < nLats && 0 <= j < nLons ==> r.cells[i][j] == g.cells[j][i]
    ensures !(g.rows == nLons && g.cols == nLats) ==> r == g
  {
    if g.rows == nLons && g.cols == nLats then Transpose(g) else g
  }

  /** Whichever of the two layouts the field has, it leaves orientation with
      one row per latitude and one column per longitude. */
  lemma OrientShape(g: Grid, nLats: nat, nLons: nat)
    requires (g.rows == nLons && g.cols == nLats) || (g.rows == nLats && g.cols == nLons)
    ensures Orient(g, nLats, nLons).rows == nLats && Orient(g, nLats, nLons).cols == nLons
  {
  }

  /** With as many latitudes as longitudes the shape test cannot tell the two
      layouts apart: a field already indexed (latitude, longitude) is
      transposed too. */
  lemma OrientSquareAlwaysTransposes(g: Grid, n: nat)
    requires g.rows == n && g.cols == n
    ensures Orient(g, n, n) == Transpose(g)
  {
  }

  /** A field stored (longitude = 3, latitude = 2) as [[1, 5], [2, 6], [3, 7]]
      comes out as the rows [1, 2, 3] and [5, 6, 7]. */
  lemma OrientExample()
    ensures Orient(Raster(3, 2, [[1.0, 5.0], [2.0, 6.0], [3.0, 7.0]]), 2, 3)
         == Raster(2, 3, [[1.0, 2.0, 3.0], [5.0, 6.0, 7.0]])
  {
    var g: Grid := Raster(3, 2, [[1.0, 5.0], [2.0, 6.0], [3.0, 7.0]]);
    var want: Grid := Raster(2, 3, [[1.0, 2.0, 3.0], [5.0, 6.0, 7.0]]);
    SameCells(Orient(g, 2, 3), want);
  }
}
