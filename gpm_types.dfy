/** Values shared by every stage of the GPM precipitation pipeline: the
    exceptions it can raise, the opened dataset, the request bounding box,
    and the foreign collaborators (file system, HDF5 opener, label-based
    selection, float32 cast) the pipeline only calls. */
module GpmTypes {

  datatype Option<T> = None | Some(value: T)

  /** The exceptions the pipeline raises, named after the Python types. */
  datatype Error =
    | FileNotFoundError(message: string)   // raised by the service itself
    | ValueError(message: string)          // raised by the service itself
    | KeyError(key: string)                // a name missing from the dataset
    | IndexError                           // a kept cell outside the coordinate arrays
    | EmptyReduction                       // the maximum of a zero-size array
    | OpenError                            // the ungrouped open attempt failed too
    | PackError                            // a point count that does not fit a u32

  datatype Result<T> = Ok(value: T) | Err(error: Error) {
    predicate IsFailure() { Err? }

    function PropagateFailure<U>(): Result<U>
      requires Err?
    {
      Err(error)
    }

    function Extract(): T
      requires Ok?
    {
      value
    }
  }

  /** `str(e)`: the text a caller sees for an exception. The service's own
      texts are exact; those of library exceptions stand in for theirs. */
  function Message(e: Error): (r: string)
    ensures e.FileNotFoundError? || e.ValueError? ==> r == e.message
    ensures e.KeyError? ==> |r| == |e.key| + 2 && r[1..|r| - 1] == e.key
    ensures !(e.FileNotFoundError? || e.ValueError?) ==> |r| > 0
  {
    match e
    case FileNotFoundError(m) => m
    case ValueError(m) => m
    case KeyError(k) => "'" + k + "'"
    case IndexError => "index out of bounds"
    case EmptyReduction => "zero-size array to reduction operation maximum which has no identity"
    case OpenError => "unable to open file"
    case PackError => "'I' format requires 0 <= number <= 4294967295"
  }

  type byte = x: int | 0 <= x < 0x100
  type u32 = x: int | 0 <= x < 0x1_0000_0000

  /** A float32 value, identified by its IEEE 754 binary32 bit pattern. */
  datatype Binary32 = Binary32(bits: u32)

  /** A 2-D array of values, `rows` by `cols`, indexed `cells[row][col]`. */
  datatype Raster = Raster(rows: nat, cols: nat, cells: seq<seq<real>>)

  predicate Rectangular(r: Raster) {
    |r.cells| == r.rows && forall i :: 0 <= i < |r.cells| ==> |r.cells[i]| == r.cols
  }

  /** The value of a numpy array of rank 2: its shape is (rows, cols). */
  type Grid = r: Raster | Rectangular(r) witness Raster(0, 0, [])

  /** `array.size == 0`: the product of the axis lengths is zero, so that no
      row holds a value. */
  predicate Empty(g: Grid)
    ensures Empty(g) <==> g.rows * g.cols == 0
    ensures Empty(g) <==> forall i :: 0 <= i < |g.cells| ==> g.cells[i] == []
  {
    assert g.rows > 0 ==> |g.cells[0]| == g.cols;
    g.rows == 0 || g.cols == 0
  }

  /** An opened dataset: each data variable over its two spatial axes (any
      other axis, such as a single time step, has length 1 and is left out);
      the names of its coordinates in the order `ds.coords` iterates them; and
      the 1-D values `ds[name].values` gives for a name, whether that name is
      a coordinate or a one-dimensional data variable. */
  datatype Dataset = Dataset(
    dataVars: map<string, Grid>,
    coordNames: seq<string>,
    coordValues: map<string, seq<real>>)

  /** The request box, as the router builds it from its query parameters. */
  datatype Bounds = Bounds(top: real, bottom: real, left: real, right: real)

  /** A closed label interval `slice(lo, hi)`. */
  datatype Range = Range(lo: real, hi: real)

  /** The argument of `ds.sel({latName: lat, lonName: lon})`. */
  datatype Selection = Selection(latName: string, lat: Range, lonName: string, lon: Range)

  /** What the pipeline calls but does not define. Each field answers for the
      file named by the request (the path under the data directory). */
  datatype Env = Env(
    fileExists: string -> bool,                      // os.path.exists
    openGrouped: string -> Option<Dataset>,          // open_dataset(..., group='Grid')
    openFlat: string -> Option<Dataset>,             // open_dataset(...) without a group
    select: (Dataset, Selection) -> Option<Dataset>, // ds.sel, None when it raises
    toBinary32: real -> Binary32)                    // numpy / struct float32 rounding

  /** Decimal rounding, which the pipeline calls and the model takes as
      given: Python's `round(x, n)`; `np.round(a, n)` on an element of a
      float32 array made by the service; and `np.round(a, n)` on an element
      of an array as read from the file, in the file's own dtype (float32 in
      IMERG granules), which the model does not track. */
  datatype Rounding = Rounding(
    scalar: (real, nat) -> real,
    element32: (Binary32, nat) -> real,
    stored: (real, nat) -> real)
}
