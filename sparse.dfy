/** The sparse threshold filter and the grid maximum. */
module Sparse {
  import opened GpmTypes

  /** A position in a grid: `data[row][col]`. */
  datatype Cell = Cell(row: nat, col: nat)

  /** `a` comes before `b` in a row-major scan. */
  predicate Before(a: Cell, b: Cell) {
    a.row < b.row || (a.row == b.row && a.col < b.col)
  }

  /** Every cell of `s` comes before every later one in a row-major scan. */
  predicate RowMajor(s: seq<Cell>) {
    forall p, q :: 0 <= p < q < |s| ==> Before(s[p], s[q])
  }

  /** The cells of row `i`, from column `j` on, whose value exceeds `t`. */
  function RowAbove(row: seq<real>, i: nat, j: nat, t: real): (r: seq<Cell>)
    requires j <= |row|
    ensures forall k :: 0 <= k < |r| ==> r[k].row == i && j <= r[k].col < |row| && row[r[k].col] > t
    ensures RowMajor(r)
    decreases |row| - j
  {
    if j == |row| then []
    else (if row[j] > t then [Cell(i, j)] else []) + RowAbove(row, i, j + 1, t)
  }

  /** The cells of rows `i` on whose value exceeds `t`. */
  function RowsAbove(g: Grid, i: nat, t: real): (r: seq<Cell>)
    requires i <= g.rows
    ensures forall k :: 0 <= k < |r| ==>
      i <= r[k].row < g.rows && r[k].col < g.cols && g.cells[r[k].row][r[k].col] > t
    ensures RowMajor(r)
    decreases g.rows - i
  {
    if i == g.rows then []
    else
      var here := RowAbove(g.cells[i], i, 0, t);
      var rest := RowsAbove(g, i + 1, t);
      assert forall p, q :: 0 <= p < |here| && 0 <= q < |rest| ==> Before(here[p], rest[q]);
      here + rest
  }

  /** The scan of one row misses no cell above `t`. */
  lemma {:induction false} RowAboveComplete(row: seq<real>, i: nat, j: nat, t: real, c: nat)
    requires j <= c < |row| && row[c] > t
    ensures Cell(i, c) in RowAbove(row, i, j, t)
    decreases |row| - j
  {
    if j < c {
      RowAboveComplete(row, i, j + 1, t, c);
    }
  }

  /** The scan of rows `i` on misses no cell above `t`. */
  lemma {:induction false} RowsAboveComplete(g: Grid, i: nat, t: real, a: nat, c: nat)
    requires i <= a < g.rows && c < g.cols && g.cells[a][c] > t
    ensures Cell(a, c) in RowsAbove(g, i, t)
    decreases g.rows - i
  {
    if i < a {
      RowsAboveComplete(g, i + 1, t, a, c);
    } else {
      RowAboveComplete(g.cells[i], i, 0, t, c);
    }
  }

  /** `np.where(data > t)`: the cells above `t`, in row-major order. */
  function Above(g: Grid, t: real): (r: seq<Cell>)
    ensures forall k :: 0 <= k < |r| ==> r[k].row < g.rows && r[k].col < g.cols && g.cells[r[k].row][r[k].col] > t
    ensures RowMajor(r)
  {
    RowsAbove(g, 0, t)
  }

  /** The cells above `t`, as a set. */
  function AboveSet(g: Grid, t: real): set<Cell> {
    set a, c | 0 <= a < g.rows && 0 <= c < g.cols && g.cells[a][c] > t :: Cell(a, c)
  }

  lemma {:induction false} RowMajorCount(s: seq<Cell>)
    requires RowMajor(s)
    ensures |set x | x in s| == |s|
  {
    if s != [] {
      assert RowMajor(s[1..]) by {
        forall p, q | 0 <= p < q < |s[1..]| ensures Before(s[1..][p], s[1..][q]) {
          assert s[1..][p] == s[p + 1] && s[1..][q] == s[q + 1];
        }
      }
      RowMajorCount(s[1..]);
      assert (set x | x in s) == {s[0]} + (set x | x in s[1..]) by {
        forall x | x in s ensures x == s[0] || x in s[1..] {
          var k :| 0 <= k < |s| && s[k] == x;
          if k > 0 {
            assert s[1..][k - 1] == x;
          }
        }
      }
      assert s[0] !in (set x | x in s[1..]) by {
        forall k | 0 <= k < |s[1..]| ensures s[1..][k] != s[0] {
          assert Before(s[0], s[k + 1]);
        }
      }
    }
  }

  /** The filter keeps exactly the cells above the threshold, each once, in
      row-major order: as many as there are such cells. */
  lemma AboveIsRowMajorScan(g: Grid, t: real)
    ensures (set x | x in Above(g, t)) == AboveSet(g, t)
    ensures RowMajor(Above(g, t))
    ensures |Above(g, t)| == |AboveSet(g, t)|
  {
    var s := Above(g, t);
    forall x | x in s ensures x in AboveSet(g, t) {
      var k :| 0 <= k < |s| && s[k] == x;
    }
    forall x | x in AboveSet(g, t) ensures x in s {
      RowsAboveComplete(g, 0, t, x.row, x.col);
    }
    RowMajorCount(s);
  }

  /** The kept points as three index-aligned sequences. */
  datatype Points = Points(lats: seq<real>, lons: seq<real>, vals: seq<real>)

  /** Every cell above `t` has a latitude and a longitude to go with it. */
  predicate Fits(g: Grid, lats: seq<real>, lons: seq<real>, t: real) {
    forall k :: 0 <= k < |Above(g, t)| ==> Above(g, t)[k].row < |lats| && Above(g, t)[k].col < |lons|
  }

  /** `data[y, x]`, `lats[y]` and `lons[x]` for the cells above `t`: the k-th
      point is the k-th such cell of the row-major scan, and fancy indexing
      raises IndexError when a kept cell lies beyond the coordinate arrays. */
  function SparseFilter(g: Grid, lats: seq<real>, lons: seq<real>, t: real): (r: Result<Points>)
    ensures r.Ok? <==> Fits(g, lats, lons, t)
    ensures r.Err? ==> r.error == IndexError
    ensures r.Ok? ==>
      var cells := Above(g, t);
      |r.value.lats| == |cells| && |r.value.lons| == |cells| && |r.value.vals| == |cells| &&
      forall k :: 0 <= k < |cells| ==>
        r.value.lats[k] == lats[cells[k].row] && r.value.lons[k] == lons[cells[k].col] &&
        r.value.vals[k] == g.cells[cells[k].row][cells[k].col] && r.value.vals[k] > t
  {
    var cells := Above(g, t);
    if Fits(g, lats, lons, t) then
      Ok(Points(seq(|cells|, k requires 0 <= k < |cells| => lats[cells[k].row]),
                seq(|cells|, k requires 0 <= k < |cells| => lons[cells[k].col]),
                seq(|cells|, k requires 0 <= k < |cells| => g.cells[cells[k].row][cells[k].col])))
    else
      Err(IndexError)
  }

  /** A field indexed (latitude, longitude) never raises IndexError. */
  lemma SparseFilterFits(g: Grid, lats: seq<real>, lons: seq<real>, t: real)
    requires g.rows == |lats| && g.cols == |lons|
    ensures SparseFilter(g, lats, lons, t).Ok?
  {
  }

  /** The largest value of a non-empty row. */
  function RowMax(row: seq<real>): (m: real)
    requires |row| > 0
    ensures forall j :: 0 <= j < |row| ==> row[j] <= m
    ensures exists j :: 0 <= j < |row| && row[j] == m
  {
    if |row| == 1 then row[0]
    else
      var m := RowMax(row[..|row| - 1]);
      assert forall j :: 0 <= j < |row| - 1 ==> row[..|row| - 1][j] == row[j];
      if row[|row| - 1] > m then row[|row| - 1] else m
  }

  /** The largest value in rows `i` on of a non-empty grid. */
  function MaxFrom(g: Grid, i: nat): (m: real)
    requires !Empty(g) && i < g.rows
    ensures forall a, c :: i <= a < g.rows && 0 <= c < g.cols ==> g.cells[a][c] <= m
    ensures exists a, c :: i <= a < g.rows && 0 <= c < g.cols && g.cells[a][c] == m
    decreases g.rows - i
  {
    var m := RowMax(g.cells[i]);
    if i + 1 == g.rows then m
    else
      var n := MaxFrom(g, i + 1);
      if m >= n then m else n
  }

  /** `np.max(data)`: the largest value of the grid; a grid without cells
      has none, and numpy raises. */
  function GridMax(g: Grid): (r: Result<real>)
    ensures r.Err? <==> Empty(g)
    ensures r.Err? ==> r.error == EmptyReduction
    ensures r.Ok? ==>
      (forall a, c :: 0 <= a < g.rows && 0 <= c < g.cols ==> g.cells[a][c] <= r.value) &&
      exists a, c :: 0 <= a < g.rows && 0 <= c < g.cols && g.cells[a][c] == r.value
  {
    if Empty(g) then Err(EmptyReduction) else Ok(MaxFrom(g, 0))
  }

  /** When at least one cell passes the threshold, the grid maximum passes it
      too and bounds every kept value. */
  lemma MaxBoundsKept(g: Grid, lats: seq<real>, lons: seq<real>, t: real)
    requires SparseFilter(g, lats, lons, t).Ok?
    requires |SparseFilter(g, lats, lons, t).value.vals| > 0
    ensures GridMax(g).Ok?
    ensures GridMax(g).value > t
    ensures forall k :: 0 <= k < |SparseFilter(g, lats, lons, t).value.vals| ==>
      SparseFilter(g, lats, lons, t).value.vals[k] <= GridMax(g).value
  {
    var cells := Above(g, t);
    assert cells[0].row < g.rows && cells[0].col < g.cols;
  }

  /** A 2-by-2 field with two cells above 0.1. */
  const ExampleGrid: Grid := Raster(2, 2, [[0.0, 0.2], [0.05, 5.0]])

  /** Threshold 0.1 keeps the cells (0, 1) and (1, 1), in that order. */
  lemma AboveExample()
    ensures Above(ExampleGrid, 0.1) == [Cell(0, 1), Cell(1, 1)]
  {
    var g := ExampleGrid;
    assert RowAbove(g.cells[1], 1, 1, 0.1) == [Cell(1, 1)];
    assert RowAbove(g.cells[1], 1, 0, 0.1) == [Cell(1, 1)];
    assert RowAbove(g.cells[0], 0, 1, 0.1) == [Cell(0, 1)];
    assert RowAbove(g.cells[0], 0, 0, 0.1) == [Cell(0, 1)];
    assert RowsAbove(g, 1, 0.1) == [Cell(1, 1)];
  }

  lemma ExampleCoordinates()
    ensures SparseFilter(ExampleGrid, [10.0, 20.0], [100.0, 200.0], 0.1).Ok?
    ensures SparseFilter(ExampleGrid, [10.0, 20.0], [100.0, 200.0], 0.1).value.lats == [10.0, 20.0]
    ensures SparseFilter(ExampleGrid, [10.0, 20.0], [100.0, 200.0], 0.1).value.lons == [200.0, 200.0]
  {
    AboveExample();
  }

  lemma ExampleValues()
    ensures SparseFilter(ExampleGrid, [10.0, 20.0], [100.0, 200.0], 0.1).Ok?
    ensures SparseFilter(ExampleGrid, [10.0, 20.0], [100.0, 200.0], 0.1).value.vals == [0.2, 5.0]
  {
    AboveExample();
  }

  /** Threshold 0.1 over [[0.0, 0.2], [0.05, 5.0]] keeps the values 0.2 and
      5.0 with their coordinates. */
  lemma SparseFilterExample()
    ensures SparseFilter(ExampleGrid, [10.0, 20.0], [100.0, 200.0], 0.1)
         == Ok(Points([10.0, 20.0], [200.0, 200.0], [0.2, 5.0]))
  {
    ExampleCoordinates();
    ExampleValues();
  }

  /** The maximum of [[0.0, 0.2], [0.05, 5.0]] is 5.0. */
  lemma GridMaxExample()
    ensures GridMax(ExampleGrid) == Ok(5.0)
  {
    var g := ExampleGrid;
    assert RowMax(g.cells[0]) == 0.2 by {
      assert g.cells[0][..1] == [0.0];
    }
    assert RowMax(g.cells[1]) == 5.0 by {
      assert g.cells[1][..1] == [0.05];
    }
  }
}
