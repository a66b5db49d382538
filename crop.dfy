/** Bounds normalisation and the crop with its fallback to the full dataset. */
module Crop {
  import opened GpmTypes
  import opened Schema

  /** `slice(min(bottom, top), max(bottom, top))`: the latitude range. */
  function LatRange(b: Bounds): (r: Range)
    ensures r.lo <= r.hi
    ensures (r.lo == b.bottom && r.hi == b.top) || (r.lo == b.top && r.hi == b.bottom)
  {
    Range(if b.bottom <= b.top then b.bottom else b.top, if b.bottom >= b.top then b.bottom else b.top)
  }

  /** `slice(min(left, right), max(left, right))`: the longitude range. */
  function LonRange(b: Bounds): (r: Range)
    ensures r.lo <= r.hi
    ensures (r.lo == b.left && r.hi == b.right) || (r.lo == b.right && r.hi == b.left)
  {
    Range(if b.left <= b.right then b.left else b.right, if b.left >= b.right then b.left else b.right)
  }

  /** The one selection the pipeline asks for, on both axes at once. */
  function SelectionFor(binding: Binding, b: Bounds): (r: Selection)
    ensures r.latName == binding.latName && r.lonName == binding.lonName
    ensures r.lat == LatRange(b) && r.lon == LonRange(b)
    ensures r.lat.lo <= r.lat.hi && r.lon.lo <= r.lon.hi
    ensures (r.lat.lo == b.bottom && r.lat.hi == b.top) || (r.lat.lo == b.top && r.lat.hi == b.bottom)
    ensures (r.lon.lo == b.left && r.lon.hi == b.right) || (r.lon.lo == b.right && r.lon.hi == b.left)
  {
    Selection(binding.latName, LatRange(b), binding.lonName, LonRange(b))
  }

  function SwapLat(b: Bounds): Bounds {
    b.(top := b.bottom, bottom := b.top)
  }

  function SwapLon(b: Bounds): Bounds {
    b.(left := b.right, right := b.left)
  }

  /** The ranges depend on the box and not on which edge is called which. */
  lemma SelectionIgnoresEdgeOrder(binding: Binding, b: Bounds)
    ensures SelectionFor(binding, SwapLat(b)) == SelectionFor(binding, b)
    ensures SelectionFor(binding, SwapLon(b)) == SelectionFor(binding, b)
    ensures SelectionFor(binding, SwapLat(SwapLon(b))) == SelectionFor(binding, b)
  {
  }

  /** What a crop does when the selection comes back empty. */
  datatype CropPolicy =
    | FallbackOnEmpty   // `_extract_cloud_arrays`, `process_local_file`
    | KeepEmpty         // `get_sparse_cloud_data`

  /** The cropped dataset: the selection when it succeeds, otherwise the full
      dataset; under FallbackOnEmpty a selection whose variable is missing or
      has no cells is replaced by the full dataset as well. */
  function CropDataset(ds: Dataset, binding: Binding, b: Bounds,
                       select: (Dataset, Selection) -> Option<Dataset>, policy: CropPolicy): (r: Dataset)
    ensures select(ds, SelectionFor(binding, b)).None? ==> r == ds
    ensures select(ds, SelectionFor(binding, b)).Some? ==>
      var c := select(ds, SelectionFor(binding, b)).value;
      r == c || (policy == FallbackOnEmpty && r == ds &&
                 (binding.varName !in c.dataVars || Empty(c.dataVars[binding.varName])))
    ensures policy == FallbackOnEmpty && binding.varName in ds.dataVars ==>
      binding.varName in r.dataVars &&
      (Empty(r.dataVars[binding.varName]) ==> r == ds)
  {
    match select(ds, SelectionFor(binding, b))
    case None => ds
    case Some(c) =>
      if policy == KeepEmpty then c
      else if binding.varName in c.dataVars && !Empty(c.dataVars[binding.varName]) then c
      else ds
  }

  /** The two policies part ways only when the selection succeeds but leaves
      the variable missing or without cells. */
  lemma PoliciesAgreeOnNonEmptyCrop(ds: Dataset, binding: Binding, b: Bounds,
                                    select: (Dataset, Selection) -> Option<Dataset>)
    requires select(ds, SelectionFor(binding, b)).Some? ==>
      var c := select(ds, SelectionFor(binding, b)).value;
      binding.varName in c.dataVars && !Empty(c.dataVars[binding.varName])
    ensures CropDataset(ds, binding, b, select, KeepEmpty) == CropDataset(ds, binding, b, select, FallbackOnEmpty)
  {
  }

  /** A box that selects nothing leaves the fallback policy on the full
      dataset and the other on the empty selection. */
  lemma EmptyCropPolicies(ds: Dataset, binding: Binding, b: Bounds,
                          select: (Dataset, Selection) -> Option<Dataset>)
    requires select(ds, SelectionFor(binding, b)).Some?
    requires var c := select(ds, SelectionFor(binding, b)).value;
      binding.varName in c.dataVars && Empty(c.dataVars[binding.varName])
    ensures CropDataset(ds, binding, b, select, FallbackOnEmpty) == ds
    ensures CropDataset(ds, binding, b, select, KeepEmpty) == select(ds, SelectionFor(binding, b)).value
  {
  }
}
