/** The `/data` endpoint: the sparse cloud arrays of one granule, either as
    a compact little-endian payload or as JSON, and a 500 text response for
    any exception on the way. */
module GpmRouter {
  import opened GpmTypes
  import opened LittleEndian
  import opened GpmService

  /** The value of the `format` query parameter that selects the payload. */
  const BinaryFormat: string := "bin"

  /** The status of every error response. */
  const ServerError: nat := 500

  /** The first count `struct.pack('<I', ...)` refuses. */
  const U32Limit: nat := 0x1_0000_0000

  /** The JSON `meta` object. */
  datatype Meta = Meta(count: nat, maxVal: real, bounds: Bounds)

  /** The JSON body: `meta` and the three columns. */
  datatype CloudJson = CloudJson(meta: Meta, lats: seq<real>, lons: seq<real>, vals: seq<real>)

  datatype Response =
    | Octets(content: seq<byte>)            // application/octet-stream
    | Json(body: CloudJson)                 // FastAPI's JSON encoding of a dict
    | PlainText(status: nat, text: string)  // text/plain

  /** `struct.pack('<If', count, max_val)`: the point count as a u32 and the
      maximum as a float32, both little-endian; a count beyond 32 bits
      raises. */
  function PackHeader(count: nat, maxVal: Binary32): (r: Result<seq<byte>>)
    ensures r.Err? <==> count >= U32Limit
    ensures r.Err? ==> r.error == PackError
    ensures r.Ok? ==>
      |r.value| == 8 && FromLe32(r.value[..4]) == count && FromLe32(r.value[4..]) == maxVal.bits
  {
    if count < U32Limit then
      var h := Le32(count) + Le32(maxVal.bits);
      assert h[..4] == Le32(count) && h[4..] == Le32(maxVal.bits);
      Le32RoundTrip(count);
      Le32RoundTrip(maxVal.bits);
      Ok(h)
    else
      Err(PackError)
  }

  /** The binary body: the 8-byte header, then the latitudes, longitudes and
      values as consecutive float32 arrays. */
  function PackBinary(a: CloudArrays, cast: real -> Binary32): (r: Result<seq<byte>>)
    ensures r.Err? <==> |a.vals| >= U32Limit
    ensures r.Err? ==> r.error == PackError
    ensures r.Ok? ==> |r.value| == 8 + 4 * (|a.lats| + |a.lons| + |a.vals|)
  {
    var header :- PackHeader(|a.vals|, cast(a.maxVal));
    Ok(header + Floats(a.lats) + Floats(a.lons) + Floats(a.vals))
  }

  /** A payload read back. */
  datatype Decoded = Decoded(count: nat, maxVal: Binary32, lats: seq<Binary32>, lons: seq<Binary32>, vals: seq<Binary32>)

  /** How a client reads the payload: the count from the header fixes where
      each array starts, and the length must be exactly 8 + 12 * count. */
  function ParsePayload(p: seq<byte>): (r: Option<Decoded>)
    ensures r.Some? <==> |p| >= 8 && |p| == 8 + 12 * FromLe32(p[..4])
    ensures r.Some? ==>
      |r.value.lats| == r.value.count && |r.value.lons| == r.value.count && |r.value.vals| == r.value.count
  {
    if |p| < 8 then None
    else
      var n := FromLe32(p[..4]);
      if |p| != 8 + 12 * n then None
      else
        Some(Decoded(n, Binary32(FromLe32(p[4..8])),
                     ParseFloats(p[8..8 + 4 * n]),
                     ParseFloats(p[8 + 4 * n..8 + 8 * n]),
                     ParseFloats(p[8 + 8 * n..])))
  }

  /** A client reading the payload gets back the count, the float32 maximum
      and the three arrays, whenever the arrays are index-aligned. */
  lemma {:induction false} PayloadRoundTrip(a: CloudArrays, cast: real -> Binary32)
    requires |a.lats| == |a.vals| && |a.lons| == |a.vals| && |a.vals| < U32Limit
    ensures PackBinary(a, cast).Ok?
    ensures ParsePayload(PackBinary(a, cast).value) == Some(Decoded(|a.vals|, cast(a.maxVal), a.lats, a.lons, a.vals))
  {
    var n := |a.vals|;
    var header := PackHeader(n, cast(a.maxVal)).value;
    var p := PackBinary(a, cast).value;
    assert p == header + Floats(a.lats) + Floats(a.lons) + Floats(a.vals);
    assert p[..4] == header[..4];
    assert p[4..8] == header[4..];
    assert p[8..8 + 4 * n] == Floats(a.lats);
    assert p[8 + 4 * n..8 + 8 * n] == Floats(a.lons);
    assert p[8 + 8 * n..] == Floats(a.vals);
    ParseFloatsRoundTrip(a.lats);
    ParseFloatsRoundTrip(a.lons);
    ParseFloatsRoundTrip(a.vals);
  }

  /** The JSON body: the count, the maximum to 2 decimals, the request box as
      given, coordinates to 3 decimals and values to 2. */
  function CloudJsonOf(a: CloudArrays, b: Bounds, rounding: Rounding): (r: CloudJson)
    ensures r.meta.count == |a.vals| && r.meta.bounds == b && r.meta.maxVal == rounding.scalar(a.maxVal, 2)
    ensures |r.lats| == |a.lats| && |r.lons| == |a.lons| && |r.vals| == |a.vals|
    ensures forall k :: 0 <= k < |a.lats| ==> r.lats[k] == rounding.element32(a.lats[k], 3)
    ensures forall k :: 0 <= k < |a.lons| ==> r.lons[k] == rounding.element32(a.lons[k], 3)
    ensures forall k :: 0 <= k < |a.vals| ==> r.vals[k] == rounding.element32(a.vals[k], 2)
  {
    CloudJson(Meta(|a.vals|, rounding.scalar(a.maxVal, 2), b),
              seq(|a.lats|, k requires 0 <= k < |a.lats| => rounding.element32(a.lats[k], 3)),
              seq(|a.lons|, k requires 0 <= k < |a.lons| => rounding.element32(a.lons[k], 3)),
              seq(|a.vals|, k requires 0 <= k < |a.vals| => rounding.element32(a.vals[k], 2)))
  }

  /** `get_gpm_data`: the bounds dict from the four query parameters, the
      sparse arrays, then the payload for `format == "bin"` and JSON for any
      other format; every exception becomes a 500 with its text. */
  function GetGpmData(env: Env, rounding: Rounding, filename: string,
                      toplat: real, bottomlat: real, leftlon: real, rightlon: real,
                      threshold: real, format: string): (r: Response)
    ensures r.PlainText? ==> r.status == ServerError
    ensures
      var arrays := ExtractCloudArrays(env, filename, Bounds(toplat, bottomlat, leftlon, rightlon), threshold);
      arrays.Err? ==> r == PlainText(ServerError, Message(arrays.error))
    ensures
      var arrays := ExtractCloudArrays(env, filename, Bounds(toplat, bottomlat, leftlon, rightlon), threshold);
      arrays.Ok? && format != BinaryFormat ==>
        r == Json(CloudJsonOf(arrays.value, Bounds(toplat, bottomlat, leftlon, rightlon), rounding))
    ensures
      var arrays := ExtractCloudArrays(env, filename, Bounds(toplat, bottomlat, leftlon, rightlon), threshold);
      arrays.Ok? && format == BinaryFormat ==>
        (|arrays.value.vals| < U32Limit ==>
           r.Octets? &&
           ParsePayload(r.content) == Some(Decoded(|arrays.value.vals|, env.toBinary32(arrays.value.maxVal),
                                                  arrays.value.lats, arrays.value.lons, arrays.value.vals))) &&
        (|arrays.value.vals| >= U32Limit ==> r == PlainText(ServerError, Message(PackError)))
  {
    var bounds := Bounds(toplat, bottomlat, leftlon, rightlon);
    match ExtractCloudArrays(env, filename, bounds, threshold)
    case Err(e) => PlainText(ServerError, Message(e))
    case Ok(a) =>
      if format == BinaryFormat then
        match PackBinary(a, env.toBinary32)
        case Err(e) => PlainText(ServerError, Message(e))
        case Ok(bytes) =>
          PayloadRoundTrip(a, env.toBinary32);
          Octets(bytes)
      else
        Json(CloudJsonOf(a, bounds, rounding))
  }

  /** A request for a granule that is not there answers 500 with the
      service's own text, in either format. */
  lemma MissingFileAnswer(env: Env, rounding: Rounding, filename: string,
                          toplat: real, bottomlat: real, leftlon: real, rightlon: real,
                          threshold: real, format: string)
    requires !env.fileExists(filename)
    ensures GetGpmData(env, rounding, filename, toplat, bottomlat, leftlon, rightlon, threshold, format)
         == PlainText(500, "GPM File not found")
  {
  }

  /** The JSON body's count is the length of each of its columns. */
  lemma JsonColumnsMatchCount(env: Env, rounding: Rounding, filename: string,
                              toplat: real, bottomlat: real, leftlon: real, rightlon: real,
                              threshold: real, format: string)
    requires GetGpmData(env, rounding, filename, toplat, bottomlat, leftlon, rightlon, threshold, format).Json?
    ensures
      var body := GetGpmData(env, rounding, filename, toplat, bottomlat, leftlon, rightlon, threshold, format).body;
      |body.lats| == body.meta.count && |body.lons| == body.meta.count && |body.vals| == body.meta.count
  {
  }

  /** The binary payload is exactly 8 + 12 * count bytes long. */
  lemma PayloadLength(a: CloudArrays, cast: real -> Binary32)
    requires |a.lats| == |a.vals| && |a.lons| == |a.vals|
    requires PackBinary(a, cast).Ok?
    ensures |PackBinary(a, cast).value| == 8 + 12 * |a.vals|
  {
  }
}
