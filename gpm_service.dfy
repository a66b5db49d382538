/** The service's three entry points, each a composition of the stages:
    open, resolve the schema, crop, extract, orient, and for two of them
    filter to the sparse point set. */
module GpmService {
  import opened GpmTypes
  import opened Schema
  import opened Crop
  import opened Orientation
  import opened Sparse

  const FileMissing: string := "GPM File not found"

  /** The existence check, then `open_dataset` with `group='Grid'` and, when
      that raises, once more without a group. */
  function OpenDataset(env: Env, filename: string): (r: Result<Dataset>)
    ensures !env.fileExists(filename) ==> r == Err(FileNotFoundError(FileMissing))
    ensures env.fileExists(filename) && env.openGrouped(filename).Some? ==> r == Ok(env.openGrouped(filename).value)
    ensures env.fileExists(filename) && env.openGrouped(filename).None? ==>
      r == (if env.openFlat(filename).Some? then Ok(env.openFlat(filename).value) else Err(OpenError))
  {
    if !env.fileExists(filename) then Err(FileNotFoundError(FileMissing))
    else match env.openGrouped(filename)
      case Some(ds) => Ok(ds)
      case None =>
        match env.openFlat(filename)
        case Some(ds) => Ok(ds)
        case None => Err(OpenError)
  }

  /** `ds[name]` for the precipitation variable. */
  function Variable(ds: Dataset, name: string): (r: Result<Grid>)
    ensures r.Ok? <==> name in ds.dataVars
  {
    if name in ds.dataVars then Ok(ds.dataVars[name]) else Err(KeyError(name))
  }

  /** `ds[name].values` for a latitude or longitude name: a coordinate, or a
      one-dimensional variable that happens to carry the name. */
  function Coordinate(ds: Dataset, name: string): (r: Result<seq<real>>)
    ensures r.Ok? <==> name in ds.coordValues
  {
    if name in ds.coordValues then Ok(ds.coordValues[name]) else Err(KeyError(name))
  }

  /** The variable, or the ValueError the entry point raises without one. */
  function RequireVariable(ds: Dataset, missing: string): (r: Result<string>)
    ensures r.Err? <==> ResolveVariable(ds).None?
    ensures r.Err? ==> r.error == ValueError(missing)
    ensures r.Ok? ==> r.value in Candidates && r.value in ds.dataVars
    ensures r.Ok? ==> ResolveVariable(ds) == Some(r.value)
  {
    match ResolveVariable(ds)
    case Some(v) => Ok(v)
    case None => Err(ValueError(missing))
  }

  /** The names of one request and the dataset cropped for it. */
  datatype Resolved = Resolved(binding: Binding, cropped: Dataset)

  /** Stages 1 to 3: open, resolve the schema, crop. */
  function OpenResolveCrop(env: Env, filename: string, b: Bounds, policy: CropPolicy, missing: string): (r: Result<Resolved>)
    ensures !env.fileExists(filename) ==> r == Err(FileNotFoundError(FileMissing))
    ensures OpenDataset(env, filename).Ok? && ResolveVariable(OpenDataset(env, filename).value).None? ==>
      r == Err(ValueError(missing))
    ensures r.Ok? ==> r.value.binding.varName in Candidates
  {
    var ds :- OpenDataset(env, filename);
    var varName :- RequireVariable(ds, missing);
    var binding := Binding(varName, CoordName(ds, "lat"), CoordName(ds, "lon"));
    Ok(Resolved(binding, CropDataset(ds, binding, b, env.select, policy)))
  }

  /** A field with its coordinate values, indexed (latitude, longitude). A
      field squeezed below rank 2 holds its values as stored, in the same
      order as the rank-1 array numpy gives. */
  datatype DenseGrid = DenseGrid(lats: seq<real>, lons: seq<real>, data: Grid)

  /** Stage 4: `ds[var].squeeze().values`, `ds[lat].values`, `ds[lon].values`,
      then the orientation test. A field that keeps rank 2 and is stored
      (longitude, latitude) comes out transposed; any other is returned as
      stored, including one squeezed to rank 1, whose shape never equals the
      pair (len(lons), len(lats)). */
  function ExtractGrid(c: Dataset, binding: Binding): (r: Result<DenseGrid>)
    ensures r.Ok? <==>
      binding.varName in c.dataVars && binding.latName in c.coordValues && binding.lonName in c.coordValues
    ensures r.Err? ==>
      r.error == (if binding.varName !in c.dataVars then KeyError(binding.varName)
                  else if binding.latName !in c.coordValues then KeyError(binding.latName)
                  else KeyError(binding.lonName))
    ensures r.Ok? ==>
      var raw := c.dataVars[binding.varName];
      var d := r.value;
      d.lats == c.coordValues[binding.latName] && d.lons == c.coordValues[binding.lonName] &&
      (SqueezeKeepsRank2(raw) && raw.rows == |d.lons| && raw.cols == |d.lats| ==>
        d.data.rows == |d.lats| && d.data.cols == |d.lons| &&
        forall i, j :: 0 <= i < |d.lats| && 0 <= j < |d.lons| ==> d.data.cells[i][j] == raw.cells[j][i]) &&
      (!(SqueezeKeepsRank2(raw) && raw.rows == |d.lons| && raw.cols == |d.lats|) ==> d.data == raw)
  {
    var raw :- Variable(c, binding.varName);
    var lats :- Coordinate(c, binding.latName);
    var lons :- Coordinate(c, binding.lonName);
    Ok(DenseGrid(lats, lons, if SqueezeKeepsRank2(raw) then Orient(raw, |lats|, |lons|) else raw))
  }

  /** The shared stages 1 to 4 of every entry point. */
  function DenseStages(env: Env, filename: string, b: Bounds, policy: CropPolicy, missing: string): (r: Result<DenseGrid>)
    ensures !env.fileExists(filename) ==> r == Err(FileNotFoundError(FileMissing))
    ensures OpenDataset(env, filename).Ok? && ResolveVariable(OpenDataset(env, filename).value).None? ==>
      r == Err(ValueError(missing))
  {
    var rc :- OpenResolveCrop(env, filename, b, policy, missing);
    ExtractGrid(rc.cropped, rc.binding)
  }

  /** `process_local_file`: the cropped field for rendering. */
  function ProcessLocalFile(env: Env, filename: string, b: Bounds): (r: Result<DenseGrid>)
    ensures !env.fileExists(filename) ==> r == Err(FileNotFoundError(FileMissing))
    ensures OpenDataset(env, filename).Ok? && ResolveVariable(OpenDataset(env, filename).value).None? ==>
      r == Err(ValueError("Variable not found in GPM file"))
  {
    DenseStages(env, filename, b, FallbackOnEmpty, "Variable not found in GPM file")
  }

  /** `f.endswith(suffix)`, case-sensitive as in Python. */
  predicate EndsWith(f: string, suffix: string)
    ensures EndsWith(f, suffix) <==>
      |suffix| <= |f| && forall i :: 0 <= i < |suffix| ==> f[|f| - |suffix| + i] == suffix[i]
  {
    |suffix| <= |f| && f[|f| - |suffix|..] == suffix
  }

  /** Any name followed by the suffix ends with it. */
  lemma EndsWithAppend(p: string, suffix: string)
    ensures EndsWith(p + suffix, suffix)
  {
    assert (p + suffix)[|p|..] == suffix;
  }

  /** The file names the listing offers: HDF5 and netCDF files. */
  predicate IsDataFile(f: string)
    ensures IsDataFile(f) ==> |f| >= 3 && f[|f| - 1] in {'5', 'c', '4'}
  {
    EndsWith(f, ".HDF5") || EndsWith(f, ".nc") || EndsWith(f, ".nc4")
  }

  /** Each of the three suffixes marks a data file whatever the name before
      it; the test is case-sensitive, so `.hdf5` and `.NC` do not. */
  lemma DataFileSuffixes(p: string)
    ensures IsDataFile(p + ".HDF5") && IsDataFile(p + ".nc") && IsDataFile(p + ".nc4")
    ensures !IsDataFile(p + ".hdf5") && !IsDataFile(p + ".NC")
  {
    EndsWithAppend(p, ".HDF5");
    EndsWithAppend(p, ".nc");
    EndsWithAppend(p, ".nc4");
    var f := p + ".hdf5";
    assert f[|f| - 4] == 'h' && f[|f| - 3] == 'd';
    var g := p + ".NC";
    assert g[|g| - 1] == 'C';
  }

  /** The data files among `entries`, in directory order. */
  function DataFiles(entries: seq<string>): (r: seq<string>)
    ensures |r| <= |entries|
    ensures forall f :: f in r <==> f in entries && IsDataFile(f)
  {
    if entries == [] then []
    else (if IsDataFile(entries[0]) then [entries[0]] else []) + DataFiles(entries[1..])
  }

  /** The filter keeps every copy of a data file and no copy of anything
      else: a name listed n times is kept n times or not at all. */
  lemma {:induction false} DataFilesCounts(entries: seq<string>)
    ensures forall f :: multiset(DataFiles(entries))[f] == (if IsDataFile(f) then multiset(entries)[f] else 0)
  {
    if entries != [] {
      DataFilesCounts(entries[1..]);
      assert entries == [entries[0]] + entries[1..];
    }
  }

  /** `list_available_files`: nothing when the data directory is missing,
      otherwise the data files of its listing `entries`. */
  function ListAvailableFiles(dirExists: bool, entries: seq<string>): (r: seq<string>)
    ensures !dirExists ==> r == []
    ensures dirExists ==> forall f :: f in r <==> f in entries && IsDataFile(f)
  {
    if dirExists then DataFiles(entries) else []
  }

  /** A listing names each data file of the directory as many times as the
      directory listing does, and nothing else. */
  lemma ListedFileCounts(entries: seq<string>)
    ensures forall f ::
              multiset(ListAvailableFiles(true, entries))[f] == (if IsDataFile(f) then multiset(entries)[f] else 0)
  {
    DataFilesCounts(entries);
  }

  /** Which of four names are granule files: the extension decides, in
      upper or lower case, and `.hdf5` is not one of them. */
  lemma ListingNames()
    ensures IsDataFile("a.HDF5") && IsDataFile("b.nc4")
    ensures !IsDataFile("notes.txt") && !IsDataFile("c.hdf5")
  {
    assert "a.HDF5"[1..] == ".HDF5";
    assert "b.nc4"[1..] == ".nc4";
    assert "notes.txt"[8] == 't';
    assert "c.hdf5"[5] == '5' && "c.hdf5"[2] == 'h';
  }

  /** A listing keeps the granule files and drops the rest. */
  lemma ListingExample()
    ensures ListAvailableFiles(true, ["a.HDF5", "notes.txt", "b.nc4", "c.hdf5"]) == ["a.HDF5", "b.nc4"]
  {
    ListingNames();
    var s3: seq<string> := ["c.hdf5"];
    var s2 := ["b.nc4"] + s3;
    var s1 := ["notes.txt"] + s2;
    var e := ["a.HDF5"] + s1;
    assert e == ["a.HDF5", "notes.txt", "b.nc4", "c.hdf5"];
    assert DataFiles(s3) == [] by { assert s3[1..] == []; }
    assert DataFiles(s2) == ["b.nc4"] by { assert s2[1..] == s3; }
    assert DataFiles(s1) == ["b.nc4"] by { assert s1[1..] == s2; }
    assert DataFiles(e) == ["a.HDF5", "b.nc4"] by { assert e[1..] == s1; }
  }

  /** The default `threshold` of `get_sparse_cloud_data` and of the `/data`
      query: lighter rain than 0.1 mm/hr counts as clear sky. */
  const DefaultThreshold: real := 0.1

  /** At the default threshold a cell of exactly 0.1 mm/hr is clear sky; only
      heavier rain is kept. */
  lemma DefaultThresholdExample()
    ensures Above(Raster(1, 3, [[0.1, 0.5, 0.0]]), DefaultThreshold) == [Cell(0, 1)]
  {
    var g: Grid := Raster(1, 3, [[0.1, 0.5, 0.0]]);
    assert RowAbove(g.cells[0], 0, 2, DefaultThreshold) == [];
    assert RowAbove(g.cells[0], 0, 1, DefaultThreshold) == [Cell(0, 1)];
    assert RowAbove(g.cells[0], 0, 0, DefaultThreshold) == [Cell(0, 1)];
  }

  /** The ValueError of `y_idxs, x_idxs = np.where(...)` on a field squeezed
      below rank 2: `np.where` then gives one index array, not two. */
  const UnpackFailure: string := "not enough values to unpack (expected 2, got 1)"

  /** `np.round(xs, n)` on an array as read from the file, element by
      element. */
  function RoundAll(xs: seq<real>, n: nat, round: (real, nat) -> real): (r: seq<real>)
    ensures |r| == |xs|
    ensures forall k :: 0 <= k < |xs| ==> r[k] == round(xs[k], n)
  {
    seq(|xs|, k requires 0 <= k < |xs| => round(xs[k], n))
  }

  /** The numpy float32 cast of each value. */
  function AsFloat32(xs: seq<real>, cast: real -> Binary32): (r: seq<Binary32>)
    ensures |r| == |xs|
    ensures forall k :: 0 <= k < |xs| ==> r[k] == cast(xs[k])
  {
    seq(|xs|, k requires 0 <= k < |xs| => cast(xs[k]))
  }

  /** What `_extract_cloud_arrays` returns: three float32 arrays and the
      maximum as a Python float. */
  datatype CloudArrays = CloudArrays(lats: seq<Binary32>, lons: seq<Binary32>, vals: seq<Binary32>, maxVal: real)

  /** The last stage of `_extract_cloud_arrays`: the cells of the field that
      exceed the threshold, each once and in row-major order, as float32
      triples (latitude, longitude, value), and the maximum of the whole
      field when some cell passes, 0.0 when none does. A field squeezed below
      rank 2 cannot be unpacked into row and column indices. */
  function CloudArraysOf(d: DenseGrid, t: real, cast: real -> Binary32): (r: Result<CloudArrays>)
    ensures r.Ok? <==> SqueezeKeepsRank2(d.data) && Fits(d.data, d.lats, d.lons, t)
    ensures !SqueezeKeepsRank2(d.data) ==> r == Err(ValueError(UnpackFailure))
    ensures r.Err? ==> r.error == IndexError || r.error == ValueError(UnpackFailure)
    ensures SqueezeKeepsRank2(d.data) && d.data.rows == |d.lats| && d.data.cols == |d.lons| ==> r.Ok?
    ensures r.Ok? ==>
      var cells := Above(d.data, t);
      |r.value.lats| == |cells| && |r.value.lons| == |cells| && |r.value.vals| == |cells| &&
      |cells| == |AboveSet(d.data, t)|
    ensures r.Ok? ==>
      var cells := Above(d.data, t);
      forall k :: 0 <= k < |cells| ==>
        r.value.lats[k] == cast(d.lats[cells[k].row]) &&
        r.value.lons[k] == cast(d.lons[cells[k].col]) &&
        r.value.vals[k] == cast(d.data.cells[cells[k].row][cells[k].col])
    ensures r.Ok? && |r.value.vals| == 0 ==> r.value.maxVal == 0.0
    ensures r.Ok? && |r.value.vals| > 0 ==>
      r.value.maxVal > t &&
      (forall i, j :: 0 <= i < d.data.rows && 0 <= j < d.data.cols ==> d.data.cells[i][j] <= r.value.maxVal) &&
      exists i, j :: 0 <= i < d.data.rows && 0 <= j < d.data.cols && d.data.cells[i][j] == r.value.maxVal
  {
    if !SqueezeKeepsRank2(d.data) then Err(ValueError(UnpackFailure)) else
    var f := SparseFilter(d.data, d.lats, d.lons, t);
    if f.Err? then Err(f.error) else
    var p := f.value;
    AboveIsRowMajorScan(d.data, t);
    var maxVal :=
      if |p.vals| > 0 then
        MaxBoundsKept(d.data, d.lats, d.lons, t);
        GridMax(d.data).value
      else 0.0;
    Ok(CloudArrays(AsFloat32(p.lats, cast), AsFloat32(p.lons, cast), AsFloat32(p.vals, cast), maxVal))
  }

  /** `_extract_cloud_arrays`: stages 1 to 4 with the fallback crop, then the
      sparse arrays of the field. */
  function ExtractCloudArrays(env: Env, filename: string, b: Bounds, threshold: real): (r: Result<CloudArrays>)
    ensures !env.fileExists(filename) ==> r == Err(FileNotFoundError(FileMissing))
    ensures OpenDataset(env, filename).Ok? && ResolveVariable(OpenDataset(env, filename).value).None? ==>
      r == Err(ValueError("Variable not found"))
    ensures r.Ok? ==> |r.value.lats| == |r.value.vals| && |r.value.lons| == |r.value.vals|
  {
    var d :- DenseStages(env, filename, b, FallbackOnEmpty, "Variable not found");
    CloudArraysOf(d, threshold, env.toBinary32)
  }

  /** What `get_sparse_cloud_data` returns: the three rounded columns and the
      `stats` object. */
  datatype SparseResponse = SparseResponse(lats: seq<real>, lons: seq<real>, vals: seq<real>, statsMax: real, statsCount: nat)

  /** The last stage of `get_sparse_cloud_data`: the cells of the field that
      exceed the threshold, each once and in row-major order, with latitudes
      and longitudes rounded to 3 decimals and values to 2; their count; and
      the unrounded maximum of the whole field, which numpy cannot take of a
      field without cells. A field squeezed below rank 2 cannot be unpacked
      into row and column indices. */
  function SparseResponseOf(d: DenseGrid, t: real, round: (real, nat) -> real): (r: Result<SparseResponse>)
    ensures r.Ok? <==> SqueezeKeepsRank2(d.data) && Fits(d.data, d.lats, d.lons, t) && !Empty(d.data)
    ensures !SqueezeKeepsRank2(d.data) ==> r == Err(ValueError(UnpackFailure))
    ensures SqueezeKeepsRank2(d.data) && Empty(d.data) ==> r == Err(EmptyReduction)
    ensures r.Err? ==> r.error == IndexError || r.error == EmptyReduction || r.error == ValueError(UnpackFailure)
    ensures r.Ok? ==>
      var cells := Above(d.data, t);
      r.value.statsCount == |AboveSet(d.data, t)| && r.value.statsCount == |cells| &&
      |r.value.lats| == |cells| && |r.value.lons| == |cells| && |r.value.vals| == |cells|
    ensures r.Ok? ==>
      var cells := Above(d.data, t);
      forall k :: 0 <= k < |cells| ==>
        r.value.lats[k] == round(d.lats[cells[k].row], 3) && r.value.lons[k] == round(d.lons[cells[k].col], 3) &&
        r.value.vals[k] == round(d.data.cells[cells[k].row][cells[k].col], 2)
    ensures r.Ok? ==>
      (forall i, j :: 0 <= i < d.data.rows && 0 <= j < d.data.cols ==> d.data.cells[i][j] <= r.value.statsMax) &&
      exists i, j :: 0 <= i < d.data.rows && 0 <= j < d.data.cols && d.data.cells[i][j] == r.value.statsMax
  {
    if !SqueezeKeepsRank2(d.data) then Err(ValueError(UnpackFailure)) else
    var f := SparseFilter(d.data, d.lats, d.lons, t);
    var m := GridMax(d.data);
    if f.Err? then Err(f.error)
    else if m.Err? then Err(m.error)
    else
      AboveIsRowMajorScan(d.data, t);
      var p := f.value;
      Ok(SparseResponse(RoundAll(p.lats, 3, round), RoundAll(p.lons, 3, round), RoundAll(p.vals, 2, round),
                        m.value, |p.vals|))
  }

  /** `get_sparse_cloud_data`: stages 1 to 4 keeping an empty crop, then the
      sparse points and statistics of the field. */
  function GetSparseCloudData(env: Env, rounding: Rounding, filename: string, b: Bounds, threshold: real): (r: Result<SparseResponse>)
    ensures !env.fileExists(filename) ==> r == Err(FileNotFoundError(FileMissing))
    ensures OpenDataset(env, filename).Ok? && ResolveVariable(OpenDataset(env, filename).value).None? ==>
      r == Err(ValueError("Variable not found"))
  {
    var d :- DenseStages(env, filename, b, KeepEmpty, "Variable not found");
    SparseResponseOf(d, threshold, rounding.stored)
  }

  /** The error text an entry point passes for a missing variable only names
      that error: it does not change a successful result. */
  lemma DenseStagesIgnoreMessage(env: Env, filename: string, b: Bounds, policy: CropPolicy, m1: string, m2: string)
    requires DenseStages(env, filename, b, policy, m1).Ok?
    ensures DenseStages(env, filename, b, policy, m2) == DenseStages(env, filename, b, policy, m1)
  {
  }

  /** A missing file is reported before any open attempt, by every entry
      point, whatever the openers would have done. */
  lemma MissingFileIsNotFound(env: Env, rounding: Rounding, filename: string, b: Bounds, t: real)
    requires !env.fileExists(filename)
    ensures ProcessLocalFile(env, filename, b) == Err(FileNotFoundError("GPM File not found"))
    ensures ExtractCloudArrays(env, filename, b, t) == Err(FileNotFoundError("GPM File not found"))
    ensures GetSparseCloudData(env, rounding, filename, b, t) == Err(FileNotFoundError("GPM File not found"))
    ensures ProcessLocalFile(env.(openGrouped := _ => None, openFlat := _ => None), filename, b)
         == ProcessLocalFile(env, filename, b)
  {
  }

  lemma OpenResolveCropIgnoresEdgeOrder(env: Env, filename: string, b: Bounds, swapped: Bounds,
                                        policy: CropPolicy, missing: string)
    requires swapped == SwapLat(b) || swapped == SwapLon(b) || swapped == SwapLat(SwapLon(b))
    ensures OpenResolveCrop(env, filename, swapped, policy, missing) == OpenResolveCrop(env, filename, b, policy, missing)
  {
    match OpenDataset(env, filename)
    case Err(_) =>
    case Ok(ds) =>
      match ResolveVariable(ds)
      case None =>
      case Some(v) =>
        var binding := Binding(v, CoordName(ds, "lat"), CoordName(ds, "lon"));
        SelectionIgnoresEdgeOrder(binding, b);
        assert CropDataset(ds, binding, swapped, env.select, policy) == CropDataset(ds, binding, b, env.select, policy);
  }

  /** Every entry point gives the same answer for a box whatever edge is
      called top or bottom, left or right. */
  lemma EntryPointsIgnoreEdgeOrder(env: Env, rounding: Rounding, filename: string, b: Bounds, t: real, swapped: Bounds)
    requires swapped == SwapLat(b) || swapped == SwapLon(b) || swapped == SwapLat(SwapLon(b))
    ensures ProcessLocalFile(env, filename, swapped) == ProcessLocalFile(env, filename, b)
    ensures ExtractCloudArrays(env, filename, swapped, t) == ExtractCloudArrays(env, filename, b, t)
    ensures GetSparseCloudData(env, rounding, filename, swapped, t) == GetSparseCloudData(env, rounding, filename, b, t)
  {
    OpenResolveCropIgnoresEdgeOrder(env, filename, b, swapped, FallbackOnEmpty, "Variable not found in GPM file");
    OpenResolveCropIgnoresEdgeOrder(env, filename, b, swapped, FallbackOnEmpty, "Variable not found");
    OpenResolveCropIgnoresEdgeOrder(env, filename, b, swapped, KeepEmpty, "Variable not found");
  }

  /** `_extract_cloud_arrays` works on the very field `process_local_file`
      returns for the same file and box. */
  lemma CloudArraysUseDenseGrid(env: Env, filename: string, b: Bounds, t: real)
    requires ProcessLocalFile(env, filename, b).Ok?
    ensures ExtractCloudArrays(env, filename, b, t) == CloudArraysOf(ProcessLocalFile(env, filename, b).value, t, env.toBinary32)
  {
    DenseStagesIgnoreMessage(env, filename, b, FallbackOnEmpty, "Variable not found in GPM file", "Variable not found");
  }

  /** The maximum `get_sparse_cloud_data` reports does not depend on the
      threshold. */
  lemma SparseMaxIgnoresThreshold(d: DenseGrid, t1: real, t2: real, round: (real, nat) -> real)
    requires SparseResponseOf(d, t1, round).Ok? && SparseResponseOf(d, t2, round).Ok?
    ensures SparseResponseOf(d, t1, round).value.statsMax == SparseResponseOf(d, t2, round).value.statsMax
  {
  }

  /** A field whose crop came back empty makes `get_sparse_cloud_data` raise
      from its maximum rather than report a maximum of 0.0. */
  lemma SparseEmptyCropRaises(env: Env, rounding: Rounding, filename: string, b: Bounds, t: real)
    requires DenseStages(env, filename, b, KeepEmpty, "Variable not found").Ok?
    requires Empty(DenseStages(env, filename, b, KeepEmpty, "Variable not found").value.data)
    ensures GetSparseCloudData(env, rounding, filename, b, t).Err?
    ensures SqueezeKeepsRank2(DenseStages(env, filename, b, KeepEmpty, "Variable not found").value.data) ==>
      GetSparseCloudData(env, rounding, filename, b, t) == Err(EmptyReduction)
  {
  }

  /** A crop one cell wide or one cell high squeezes below rank 2, and both
      sparse entry points then raise where they unpack `np.where`. */
  lemma ThinCropRaises(env: Env, rounding: Rounding, filename: string, b: Bounds, t: real)
    requires DenseStages(env, filename, b, KeepEmpty, "Variable not found").Ok?
    requires DenseStages(env, filename, b, FallbackOnEmpty, "Variable not found").Ok?
    requires !SqueezeKeepsRank2(DenseStages(env, filename, b, KeepEmpty, "Variable not found").value.data)
    requires !SqueezeKeepsRank2(DenseStages(env, filename, b, FallbackOnEmpty, "Variable not found").value.data)
    ensures GetSparseCloudData(env, rounding, filename, b, t) == Err(ValueError(UnpackFailure))
    ensures ExtractCloudArrays(env, filename, b, t) == Err(ValueError(UnpackFailure))
  {
  }

  /** Orientation neither creates nor removes cells. */
  lemma OrientKeepsEmptiness(g: Grid, nLats: nat, nLons: nat)
    ensures Empty(Orient(g, nLats, nLons)) <==> Empty(g)
  {
  }

  /** With the fallback, a file whose variable has cells always yields a
      field with cells, whatever the box: `process_local_file` and
      `_extract_cloud_arrays` never work on an empty crop. */
  lemma FallbackFieldHasCells(env: Env, filename: string, b: Bounds, missing: string)
    requires OpenDataset(env, filename).Ok?
    requires var ds := OpenDataset(env, filename).value;
      ResolveVariable(ds).Some? && !Empty(ds.dataVars[ResolveVariable(ds).value])
    requires DenseStages(env, filename, b, FallbackOnEmpty, missing).Ok?
    ensures !Empty(DenseStages(env, filename, b, FallbackOnEmpty, missing).value.data)
  {
    var ds := OpenDataset(env, filename).value;
    var rc := OpenResolveCrop(env, filename, b, FallbackOnEmpty, missing).value;
    assert rc.binding.varName == ResolveVariable(ds).value;
    var raw := rc.cropped.dataVars[rc.binding.varName];
    assert !Empty(raw);
    var d := ExtractGrid(rc.cropped, rc.binding).value;
    OrientKeepsEmptiness(raw, |d.lats|, |d.lons|);
  }
}
