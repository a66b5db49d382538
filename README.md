# inside-a-cloud: the GPM precipitation pipeline, in Dafny

inside-a-cloud serves NASA GPM IMERG precipitation granules (HDF5/netCDF)
to a 3-D web viewer. This project models the part of the backend that turns
one granule and a bounding box into data. It covers:

- the service `app/services/gpm_service.py`: `_extract_cloud_arrays`,
  `process_local_file`, `get_sparse_cloud_data` and `list_available_files`;
- the router's `/data` handler `get_gpm_data` in `app/api/routers/gpm.py`.

Every entry point runs the same stages:

1. Check that the file exists.
2. Open it, first with the `Grid` group and then without one.
3. Pick the precipitation variable from three candidate names, and the
   latitude and longitude coordinates by a case-insensitive substring match.
4. Crop to the box, whatever order its edges come in.
5. Extract the field and transpose it when it is stored
   (longitude, latitude).
6. For the sparse entry points, keep the cells above a threshold in
   row-major order with their coordinates, plus the field's maximum.

The router then does one of two things:

- It packs the result as an 8-byte little-endian header (a u32 count and
  a float32 maximum) followed by three float32 arrays.
- Or it returns JSON. Every exception becomes a 500 `text/plain` response.

The model is pure, as the code is. Each stage is a total function.
Exceptions are values of a `Result` type. `FileNotFoundError`,
`ValueError`, `KeyError` and `IndexError` are named after the Python
exceptions they stand for. Three constructors stand in for exceptions the
code does not name:

- `EmptyReduction` is the ValueError numpy raises for the maximum of an
  array of size 0.
- `OpenError` is whatever the ungrouped `open_dataset` raises.
- `PackError` is the `struct.error` of packing a count beyond 32 bits.

What the code calls but does not define is passed in as the `Env` value.
That covers the file-existence check, the two `open_dataset` attempts,
xarray's label selection `ds.sel` (`None` when it raises) and the float32
rounding. The JSON decimal rounding is a `Rounding` value. Floats are
`real`, and a float32 is kept as its 32-bit pattern (`Binary32`), so the
payload's bytes are exact.

Modules:

- `GpmTypes`: errors, grids, datasets, bounds, `Env`.
- `Schema`: variable and coordinate resolution.
- `Crop`: ranges and the crop policies.
- `Orientation`: the transpose test.
- `Sparse`: the threshold filter and the maximum.
- `LittleEndian`: `<I`, `<f` and `tobytes()`.
- `GpmService`: the service entry points.
- `GpmRouter`: `get_gpm_data` and the payload reader.

The two sparse entry points treat a field whose points all fall below the
threshold differently:

- `_extract_cloud_arrays` reports a maximum of 0.0 whenever no point
  survives, even when the field has a positive maximum (line 57;
  `CloudArraysOf`).
- `get_sparse_cloud_data` has no empty-crop fallback. It reports the
  field's maximum whatever the threshold. On a field with no cells, `np.max`
  raises (line 173; `SparseResponseOf`, `SparseEmptyCropRaises`).

A box only one cell wide or high makes `squeeze()` drop that axis. The
field then has rank 1, and both sparse entry points raise a ValueError where
they unpack `np.where` into row and column indices (lines 50 and 155;
`ThinCropRaises`). For `process_local_file`, numpy gives a rank-1 array;
the model returns the field as stored, with the same values in the same
order.

The `format` parameter declares `enum=["json", "bin"]`. This only reaches
the OpenAPI schema, so the handler itself serves JSON for any value other
than `"bin"`, and the model does the same.

## Model

| member | source | states |
|---|---|---|
| Schema.ResolveVariable | app/services/gpm_service.py:23-24 | the variable is a candidate the dataset holds; none is chosen exactly when the dataset holds no candidate |
| Schema.Lower | app/services/gpm_service.py:25 | `.lower()` keeps the length, turns each capital into its small letter and leaves every other character |
| Schema.Contains | app/services/gpm_service.py:25 | `sub in s`: the empty string is in every string, and a string never contains a longer one |
| Schema.First | app/services/gpm_service.py:24 | `next(...)` over a generator: `None` exactly when no name satisfies the test; otherwise a name that does, with none before it satisfying it |
| Schema.FirstAt | app/services/gpm_service.py:25-26 | the first match at position k is the result |
| Schema.ContainsAt | app/services/gpm_service.py:25-26 | Python's `sub in s` holds exactly when `sub` starts at some position of `s` |
| Schema.LacksFirstChar | app/services/gpm_service.py:25-26 | a string without the key's first character does not contain the key |
| Schema.CoordName | app/services/gpm_service.py:25-26 | the coordinate name is the first name in coordinate order whose lower-cased form contains the key; with none, the key itself |
| Schema.ResolveVariablePriority | app/services/gpm_service.py:23-24 | `precipitationCal` wins over `precipitation`, which wins over `precip`; no variable is found exactly when none of the three is present |
| Schema.CoordNameIgnoresCase | app/services/gpm_service.py:25-26 | `Lat` and `Lon` are found for `lat` and `lon`, and `time` is skipped |
| Schema.CoordNameFirstWins | app/services/gpm_service.py:25 | `lat_bnds`, listed before `lat`, is taken as the latitude name |
| Schema.CoordNameDefaults | app/services/gpm_service.py:25 | with coordinates `y` and `x`, the literal `lat` is used |
| Crop.LatRange | app/services/gpm_service.py:31 | the latitude slice runs from the smaller to the larger of bottom and top |
| Crop.LonRange | app/services/gpm_service.py:32 | the longitude slice runs from the smaller to the larger of left and right |
| Crop.SelectionFor | app/services/gpm_service.py:35 | the `ds.sel` argument names the resolved latitude and longitude coordinates, and the ranges are exactly `slice(min(bottom, top), max(bottom, top))` and `slice(min(left, right), max(left, right))`: from one box edge to the other, low end first |
| Crop.SelectionIgnoresEdgeOrder | app/services/gpm_service.py:31-32 | swapping top with bottom, or left with right, gives the same selection |
| Crop.CropDataset | app/services/gpm_service.py:34-38 | a failing selection keeps the full dataset; a successful one is kept unless, under the fallback, its variable is missing or has size 0, when the full dataset is used; under the fallback a present variable stays present and is empty only if it was empty in the full dataset |
| Crop.PoliciesAgreeOnNonEmptyCrop | app/services/gpm_service.py:138-141 | the crop without a size check agrees with the fallback crop whenever the selection keeps the variable with cells |
| Crop.EmptyCropPolicies | app/services/gpm_service.py:89-93 | on a selection with no cells, the fallback returns the full dataset and the sparse entry point keeps the empty selection |
| Orientation.SqueezeKeepsRank2 | app/services/gpm_service.py:41 | `squeeze()` (here and at lines 96 and 144) leaves the shape (rows, cols) exactly when neither axis has length 1; otherwise fewer than two axes remain |
| Orientation.Transpose | app/services/gpm_service.py:45-46 | `data.T` swaps the shape and reads `r[i][j] = g[j][i]` |
| Orientation.TransposeTwice | app/services/gpm_service.py:45-46 | transposing twice gives the field back |
| Orientation.Orient | app/services/gpm_service.py:45-46 | a field of shape (len(lons), len(lats)) comes out (len(lats), len(lons)) with its cells transposed; any other field is unchanged |
| Orientation.OrientShape | app/services/gpm_service.py:101-102 | a field in either layout leaves with one row per latitude and one column per longitude |
| Orientation.OrientSquareAlwaysTransposes | app/services/gpm_service.py:149-150 | with as many latitudes as longitudes, a field already (latitude, longitude) is transposed as well |
| Orientation.OrientExample | app/services/gpm_service.py:45-46 | a 3-by-2 (longitude, latitude) field comes out 2-by-3 with rows of latitude |
| Sparse.Above | app/services/gpm_service.py:50 | `np.where(data > t)` lists only cells inside the field whose value exceeds t, in row-major order (completeness: `Sparse.AboveIsRowMajorScan`) |
| Sparse.RowAbove | app/services/gpm_service.py:50 | the scan of one row yields only cells of that row above the threshold, in column order |
| Sparse.RowsAbove | app/services/gpm_service.py:50 | the scan of rows i on yields only in-range cells above the threshold, in row-major order |
| Sparse.RowAboveComplete | app/services/gpm_service.py:50 | the row scan misses no cell above the threshold |
| Sparse.RowsAboveComplete | app/services/gpm_service.py:50 | the grid scan misses no cell above the threshold |
| Sparse.RowMajorCount | app/services/gpm_service.py:50 | a strictly row-major list of cells has no repeats |
| Sparse.AboveIsRowMajorScan | app/services/gpm_service.py:50 | `np.where(data > t)` yields exactly the set of cells above t, in row-major order, each once |
| Sparse.SparseFilter | app/services/gpm_service.py:50-55 | the three columns are index-aligned with the scan: the k-th point is the k-th kept cell, and its value exceeds the threshold; IndexError exactly when a kept cell lies beyond the coordinate arrays |
| Sparse.SparseFilterFits | app/services/gpm_service.py:154-160 | a field shaped (len(lats), len(lons)) never raises IndexError |
| Sparse.RowMax | app/services/gpm_service.py:57 | the maximum of a non-empty row bounds every value and is one of them |
| Sparse.MaxFrom | app/services/gpm_service.py:57 | the maximum of rows i on bounds every cell there and is one of them |
| Sparse.GridMax | app/services/gpm_service.py:173 | `np.max(data)` fails exactly on a field of size 0; otherwise it bounds every cell and is one of them |
| Sparse.MaxBoundsKept | app/services/gpm_service.py:57 | when a point survives, the field maximum exists, exceeds the threshold and bounds every kept value |
| Sparse.AboveExample | app/services/gpm_service.py:155 | [[0, 0.2], [0.05, 5]] at 0.1 keeps cells (0, 1) and (1, 1) |
| Sparse.ExampleCoordinates | app/services/gpm_service.py:158-160 | the coordinates of those cells are looked up by row and by column |
| Sparse.ExampleValues | app/services/gpm_service.py:158 | their values are 0.2 and 5.0 |
| Sparse.SparseFilterExample | app/services/gpm_service.py:154-160 | the whole sparse result of that example |
| Sparse.GridMaxExample | app/services/gpm_service.py:173 | the maximum of that example is 5.0 |
| LittleEndian.Le32 | app/api/routers/gpm.py:64 | `<I` packs a word into four bytes |
| LittleEndian.Le32RoundTrip | app/api/routers/gpm.py:64 | reading the four bytes back gives the word |
| LittleEndian.FromLe32RoundTrip | app/api/routers/gpm.py:64 | every four bytes are the packing of the word they spell |
| LittleEndian.Floats | app/api/routers/gpm.py:66 | `tobytes()` of a float32 array is four bytes per element |
| LittleEndian.FloatsAt | app/api/routers/gpm.py:66 | bytes 4k to 4k+4 hold the k-th float |
| LittleEndian.ParseFloats | app/api/routers/gpm.py:52 | reading floats back gives one per four bytes |
| LittleEndian.ParseFloatsRoundTrip | app/api/routers/gpm.py:66 | reading back `tobytes()` gives the array |
| GpmTypes.Empty | app/services/gpm_service.py:36 | `.size == 0` (here and at line 91) holds exactly when the product of the axis lengths is 0, that is when no row holds a value |
| GpmTypes.Message | app/api/routers/gpm.py:87-88 | `str(e)`: the service's FileNotFoundError and ValueError texts are passed through exactly; a KeyError's text is its key in quotes; other exceptions have a non-empty text |
| GpmService.OpenDataset | app/services/gpm_service.py:12-20 | a missing file raises FileNotFoundError("GPM File not found") before any open; otherwise the grouped open, falling back to the ungrouped one, whose failure propagates |
| GpmService.Variable | app/services/gpm_service.py:41 | `ds[var]` succeeds exactly when the variable is present |
| GpmService.Coordinate | app/services/gpm_service.py:42-43 | `ds[name]` succeeds exactly when the coordinate is present |
| GpmService.RequireVariable | app/services/gpm_service.py:28 | ValueError with the entry point's text exactly when no candidate is present; otherwise the very variable `ResolveVariable` picks |
| GpmService.OpenResolveCrop | app/services/gpm_service.py:12-38 | a missing file or a missing variable gives its error; a success carries a candidate variable |
| GpmService.ExtractGrid | app/services/gpm_service.py:41-46 | KeyError for the variable, then the latitude, then the longitude; otherwise the coordinates as stored and the field transposed to (latitude, longitude) when it keeps rank 2 after `squeeze()` and was stored (longitude, latitude); any other field, including one squeezed to rank 1, as stored |
| GpmService.DenseStages | app/services/gpm_service.py:12-46 | the shared stages report a missing file and a missing variable with the entry point's text |
| GpmService.ProcessLocalFile | app/services/gpm_service.py:63-105 | `process_local_file`: FileNotFoundError for a missing file, ValueError("Variable not found in GPM file") without a candidate |
| GpmService.EndsWith | app/services/gpm_service.py:109 | `f.endswith(suffix)` holds exactly when the last characters of `f` are those of the suffix, one by one |
| GpmService.EndsWithAppend | app/services/gpm_service.py:109 | any name followed by a suffix ends with it |
| GpmService.IsDataFile | app/services/gpm_service.py:109 | a data file name ends in `5`, `c` or `4` |
| GpmService.DataFileSuffixes | app/services/gpm_service.py:109 | any name ending `.HDF5`, `.nc` or `.nc4` is a data file, and the test is case-sensitive: `.hdf5` and `.NC` are not |
| GpmService.DataFiles | app/services/gpm_service.py:109 | a name is kept exactly when it is listed and ends in `.HDF5`, `.nc` or `.nc4` |
| GpmService.DataFilesCounts | app/services/gpm_service.py:109 | the comprehension keeps every copy of a data file and no copy of any other name |
| GpmService.ListAvailableFiles | app/services/gpm_service.py:107-109 | no directory gives no files; otherwise exactly the listed data files |
| GpmService.ListedFileCounts | app/services/gpm_service.py:107-109 | with a directory, each data file is listed as many times as in the directory listing, and nothing else is |
| GpmService.ListingNames | app/services/gpm_service.py:109 | `a.HDF5` and `b.nc4` are data files; `notes.txt` is not, and neither is `c.hdf5`, because the suffix test is case-sensitive |
| GpmService.ListingExample | app/services/gpm_service.py:109 | `a.HDF5` and `b.nc4` are kept, in listing order, and `notes.txt` and `c.hdf5` are dropped |
| GpmService.DefaultThresholdExample | app/services/gpm_service.py:111 | at the default threshold 0.1, a cell of exactly 0.1 is dropped and one of 0.5 is kept |
| GpmService.AsFloat32 | app/services/gpm_service.py:53-55 | `.astype(np.float32)` casts each value and keeps the order |
| GpmService.RoundAll | app/services/gpm_service.py:169-171 | `np.round(xs, n)` rounds each element and keeps the order |
| GpmService.CloudArraysOf | app/services/gpm_service.py:48-57 | the float32 columns hold the cells above the threshold, each once, in row-major order; the maximum is that of the whole field and exceeds the threshold when some point survives, and is 0.0 when none does; IndexError exactly when a kept cell has no coordinate; ValueError when the field was squeezed below rank 2 |
| GpmService.ExtractCloudArrays | app/services/gpm_service.py:7-61 | `_extract_cloud_arrays`: the missing-file and missing-variable errors; the three columns have one length |
| GpmService.SparseResponseOf | app/services/gpm_service.py:152-179 | the columns hold the cells above the threshold in row-major order, latitudes and longitudes rounded to 3 decimals and values to 2, and `count` is their number; `max` is unrounded, bounds every cell and is one of them; a field of size 0 raises, and so does one squeezed below rank 2 |
| GpmService.GetSparseCloudData | app/services/gpm_service.py:111-179 | `get_sparse_cloud_data`: FileNotFoundError for a missing file, ValueError("Variable not found") without a candidate, then the points of the field as cropped, with no fallback for an empty crop |
| GpmService.DenseStagesIgnoreMessage | app/services/gpm_service.py:80 | the missing-variable text changes nothing in a successful result |
| GpmService.MissingFileIsNotFound | app/services/gpm_service.py:13-14 | all three entry points raise FileNotFoundError("GPM File not found") for a missing file, whatever the openers would do |
| GpmService.OpenResolveCropIgnoresEdgeOrder | app/services/gpm_service.py:31-35 | the crop stage gives one result for a box however its edges are named |
| GpmService.EntryPointsIgnoreEdgeOrder | app/services/gpm_service.py:86-90 | each entry point gives one result for a box however its edges are named |
| GpmService.CloudArraysUseDenseGrid | app/services/gpm_service.py:41-46 | `_extract_cloud_arrays` filters the very field `process_local_file` returns |
| GpmService.SparseMaxIgnoresThreshold | app/services/gpm_service.py:173 | the reported maximum does not depend on the threshold |
| GpmService.SparseEmptyCropRaises | app/services/gpm_service.py:173 | a crop with no cells makes `get_sparse_cloud_data` raise instead of reporting a maximum, from `np.max` when the field keeps rank 2 |
| GpmService.ThinCropRaises | app/services/gpm_service.py:155 | a field squeezed below rank 2 makes both sparse entry points raise ValueError where `np.where` is unpacked |
| GpmService.OrientKeepsEmptiness | app/services/gpm_service.py:101-102 | the transpose test neither adds nor removes cells |
| GpmService.FallbackFieldHasCells | app/services/gpm_service.py:89-93 | with the fallback, a file whose variable has cells yields a field with cells for any box |
| GpmRouter.PackHeader | app/api/routers/gpm.py:64 | the header is eight bytes spelling the count and the float32 maximum; `struct.error` exactly when the count does not fit 32 bits |
| GpmRouter.PackBinary | app/api/routers/gpm.py:62-68 | the payload fails exactly when the count does not fit; otherwise it is 8 bytes plus 4 per float |
| GpmRouter.ParsePayload | app/api/routers/gpm.py:52 | the `[Header 8B][Lats][Lons][Vals]` layout is read back exactly when the length is 8 + 12 * count, giving three columns of `count` floats |
| GpmRouter.PayloadRoundTrip | app/api/routers/gpm.py:61-68 | reading the payload back gives the count, the float32 maximum and the three arrays |
| GpmRouter.PayloadLength | app/api/routers/gpm.py:62-68 | the payload is 8 + 12 * count bytes |
| GpmRouter.CloudJsonOf | app/api/routers/gpm.py:73-83 | `meta` carries the count, the maximum to 2 decimals and the request box as given; coordinates are rounded to 3 decimals and values to 2, element by element |
| GpmRouter.GetGpmData | app/api/routers/gpm.py:39-88 | an exception becomes a 500 with `str(e)`; `"bin"` gives a payload that reads back to the arrays, or a 500 for a count beyond 32 bits; any other format gives the JSON body |
| GpmRouter.MissingFileAnswer | app/api/routers/gpm.py:85-88 | a missing granule answers 500 "GPM File not found" in either format |
| GpmRouter.JsonColumnsMatchCount | app/api/routers/gpm.py:59-83 | each JSON column has `meta.count` entries |

## Left out

- File opening, `ds.close()`, `os.path.join` with `DATA_DIR`, and the
  directory listing are not modelled. They are the `Env` fields and the
  parameters of `ListAvailableFiles`. Releasing a file handle has no
  observable effect on the results.
- xarray's label selection `ds.sel` is not modelled: it is a parameter,
  not a model of coordinate search.
- Schema.ResolveVariable: xarray's `v in ds` also holds for a coordinate
  named like a candidate, and `ds[v]` would then return that coordinate.
  The model consults only the data variables, because it does not pair a
  coordinate with a two-dimensional field.
- `squeeze()` is not modelled for data variables with more than one axis
  besides latitude and longitude. The model holds each variable over its
  two spatial axes and models only the squeeze of a spatial axis of
  length 1.
- GpmService.ExtractGrid: a field squeezed below rank 2 is kept as its
  stored grid, because the model has no arrays of rank 1. The values and
  their order are those of numpy's rank-1 array.
- GpmService.UnpackFailure: a field squeezed to rank 0 (a one-cell box)
  raises a ValueError whose numpy wording depends on the numpy version. The
  model uses the rank-1 text for both.
- Float32 rounding and the decimal rounding of `round` / `np.round` are
  parameters (`Env.toBinary32`, `Rounding`). `Rounding.stored` rounds an
  element of an array as read from the file. It does not track that
  array's dtype, which is float32 in IMERG granules. IEEE arithmetic, NaN and
  infinities are not modelled: values are exact reals.
- Python's default arguments are not applied automatically: `threshold=0.1`
  of `get_sparse_cloud_data` and of the `/data` query, and `format="json"`.
  The default threshold is `GpmService.DefaultThreshold`, and callers pass
  both values explicitly.
- GpmRouter.PackHeader: does not model the OverflowError `struct.pack('<f')`
  raises for a maximum beyond float32 range, because the float32 cast is a
  total parameter.
- GpmRouter.GetGpmData: `tobytes()` is modelled as little-endian. A
  big-endian host would emit its own byte order for the arrays, while the
  header stays little-endian.
- GpmTypes.Message: the texts of library exceptions stand in for the
  library's wording, which depends on the library version; for example,
  recent xarray words a missing name's KeyError at length. Only the
  service's own texts are exact.
- Schema.Lower: lower-cases ASCII letters only. Python's `str.lower` also
  covers the rest of Unicode.
- `traceback.print_exc()` and FastAPI routing and parameter parsing are not
  modelled. `list_files` and `plot_gpm_file` are not modelled. The heatmap
  and filename helpers, `app/utils/plotting.py` and `app/utils/formatting.py`,
  are not part of this model.
