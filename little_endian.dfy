/** Little-endian 32-bit words: the `<I` and `<f` fields of `struct.pack` and
    the bytes `tobytes()` gives for a float32 array on a little-endian host. */
module LittleEndian {
  import opened GpmTypes

  /** The four bytes of `x`, least significant first. */
  function Le32(x: u32): (r: seq<byte>)
    ensures |r| == 4
  {
    [x % 0x100, x / 0x100 % 0x100, x / 0x1_0000 % 0x100, x / 0x100_0000]
  }

  /** The word four little-endian bytes spell. */
  function FromLe32(b: seq<byte>): (x: u32)
    requires |b| == 4
  {
    b[0] as int + 0x100 * b[1] as int + 0x1_0000 * b[2] as int + 0x100_0000 * b[3] as int
  }

  lemma Le32RoundTrip(x: u32)
    ensures FromLe32(Le32(x)) == x
  {
    var b := Le32(x);
    assert x == x % 0x100 + 0x100 * (x / 0x100);
    assert x / 0x100 == x / 0x100 % 0x100 + 0x100 * (x / 0x1_0000);
    assert x / 0x1_0000 == x / 0x1_0000 % 0x100 + 0x100 * (x / 0x100_0000);
  }

  lemma FromLe32RoundTrip(b: seq<byte>)
    requires |b| == 4
    ensures Le32(FromLe32(b)) == b
  {
    var x: int := FromLe32(b);
    var hi: int := b[1] as int + 0x100 * b[2] as int + 0x1_0000 * b[3] as int;
    assert x == b[0] as int + 0x100 * hi;
    assert x % 0x100 == b[0] && x / 0x100 == hi;
    var hi2: int := b[2] as int + 0x100 * b[3] as int;
    assert hi == b[1] as int + 0x100 * hi2;
    assert hi % 0x100 == b[1] && hi / 0x100 == hi2;
    assert x / 0x1_0000 == hi2 by {
      assert x == b[0] as int + 0x100 * b[1] as int + 0x1_0000 * hi2;
    }
    assert hi2 % 0x100 == b[2] && hi2 / 0x100 == b[3];
    assert x / 0x100_0000 == b[3] by {
      assert x == b[0] as int + 0x100 * b[1] as int + 0x1_0000 * b[2] as int + 0x100_0000 * b[3] as int;
    }
  }

  /** `np.array(xs, dtype=np.float32).tobytes()`: the words one after the
      other, with no gaps. */
  function Floats(xs: seq<Binary32>): (r: seq<byte>)
    ensures |r| == 4 * |xs|
  {
    if xs == [] then [] else Le32(xs[0].bits) + Floats(xs[1..])
  }

  /** Bytes 4k to 4k + 4 of the array hold its k-th float. */
  lemma {:induction false} FloatsAt(xs: seq<Binary32>, k: nat)
    requires k < |xs|
    ensures Floats(xs)[4 * k..4 * k + 4] == Le32(xs[k].bits)
  {
    if k > 0 {
      FloatsAt(xs[1..], k - 1);
      assert Floats(xs)[4 * k..4 * k + 4] == Floats(xs[1..])[4 * (k - 1)..4 * (k - 1) + 4];
    }
  }

  /** Reads a byte string back as consecutive little-endian floats. */
  function ParseFloats(b: seq<byte>): (r: seq<Binary32>)
    requires |b| % 4 == 0
    ensures |r| == |b| / 4
  {
    if b == [] then [] else [Binary32(FromLe32(b[..4]))] + ParseFloats(b[4..])
  }

  lemma {:induction false} ParseFloatsRoundTrip(xs: seq<Binary32>)
    ensures ParseFloats(Floats(xs)) == xs
  {
    if xs != [] {
      var b := Floats(xs);
      assert b[..4] == Le32(xs[0].bits);
      assert b[4..] == Floats(xs[1..]);
      Le32RoundTrip(xs[0].bits);
      ParseFloatsRoundTrip(xs[1..]);
    }
  }
}
