/** Raw recordings and their decoding into complex baseband samples. */
module Iq {

  /** One unsigned 8-bit component of a u8 recording. */
  type byte = b: int | 0 <= b < 256

  /** A complex baseband sample. */
  datatype Complex = Complex(re: real, im: real)

  datatype Option<T> = None | Some(value: T)

  /** The largest decoded component value, 255 / 256 - 0.5. */
  const MAX_COMPONENT: real := 127.0 / 256.0

  /** One u8 component mapped to a real: b / 256 - 0.5. The source does this in
      single precision, where it is exact (eight significant bits). */
  function U8ToReal(b: byte): (x: real)
    ensures -0.5 <= x <= MAX_COMPONENT
    ensures x == -0.5 <==> b == 0
  {
    b as real / 256.0 - 0.5
  }

  /** Inverse of U8ToReal on its range. */
  function RealToU8(x: real): (b: int)
  {
    ((x + 0.5) * 256.0).Floor
  }

  lemma U8RoundTrip(b: byte)
    ensures RealToU8(U8ToReal(b)) == b
  {
    assert (U8ToReal(b) + 0.5) * 256.0 == b as real;
  }

  /** The u8 decode as the source writes it: the byte array is reshaped into two
      rows of n/2, so the first half of the recording gives the I components and
      the second half the Q components. An odd number of bytes cannot be
      reshaped and is an error. */
  function DecodeU8(raw: seq<byte>): (r: Option<seq<Complex>>)
    ensures r.None? <==> |raw| % 2 == 1
    ensures r.Some? ==> |r.value| == |raw| / 2
    ensures r.Some? ==> forall k :: 0 <= k < |raw| / 2 ==>
      r.value[k].re == U8ToReal(raw[k]) && r.value[k].im == U8ToReal(raw[|raw| / 2 + k])
  {
    if |raw| % 2 == 1 then None
    else
      var h := |raw| / 2;
      Some(seq(h, k requires 0 <= k < h => Complex(U8ToReal(raw[k]), U8ToReal(raw[h + k]))))
  }

  /** The layout DecodeU8 reads: all I components, then all Q components. */
  function EncodeU8(s: seq<Complex>): (raw: seq<int>)
    ensures |raw| == 2 * |s|
  {
    seq(|s|, k requires 0 <= k < |s| => RealToU8(s[k].re))
      + seq(|s|, k requires 0 <= k < |s| => RealToU8(s[k].im))
  }

  /** Decoding loses nothing: re-encoding a decoded recording gives the bytes back. */
  lemma {:induction false} DecodeU8RoundTrip(raw: seq<byte>)
    requires |raw| % 2 == 0
    ensures DecodeU8(raw).Some? && EncodeU8(DecodeU8(raw).value) == raw
  {
    var s := DecodeU8(raw).value;
    var h := |raw| / 2;
    var e := EncodeU8(s);
    forall i | 0 <= i < |raw| ensures e[i] == raw[i] {
      if i < h {
        U8RoundTrip(raw[i]);
      } else {
        U8RoundTrip(raw[i]);
        assert s[i - h].im == U8ToReal(raw[h + (i - h)]);
      }
    }
  }

  /** Every decoded component lies in [-0.5, 127/256]. */
  lemma DecodeU8Bounds(raw: seq<byte>, k: nat)
    requires |raw| % 2 == 0 && k < |raw| / 2
    ensures -0.5 <= DecodeU8(raw).value[k].re <= MAX_COMPONENT
    ensures -0.5 <= DecodeU8(raw).value[k].im <= MAX_COMPONENT
  {
  }

  /** The decode for a recording whose I and Q bytes alternate (I0 Q0 I1 Q1 ...),
      the layout of a u8 capture and the layout the float recordings already have. */
  function DecodeU8Interleaved(raw: seq<byte>): (r: Option<seq<Complex>>)
    ensures r.None? <==> |raw| % 2 == 1
    ensures r.Some? ==> |r.value| == |raw| / 2
    ensures r.Some? ==> forall k :: 0 <= k < |raw| / 2 ==>
      r.value[k].re == U8ToReal(raw[2 * k]) && r.value[k].im == U8ToReal(raw[2 * k + 1])
  {
    if |raw| % 2 == 1 then None
    else Some(seq(|raw| / 2, k requires 0 <= k < |raw| / 2 =>
      Complex(U8ToReal(raw[2 * k]), U8ToReal(raw[2 * k + 1]))))
  }

  /** The interleaved layout: I and Q of each sample side by side. */
  function EncodeU8Interleaved(s: seq<Complex>): (raw: seq<int>)
    ensures |raw| == 2 * |s|
    ensures forall k :: 0 <= k < |s| ==> raw[2 * k] == RealToU8(s[k].re) && raw[2 * k + 1] == RealToU8(s[k].im)
  {
    if s == [] then []
    else [RealToU8(s[0].re), RealToU8(s[0].im)] + EncodeU8Interleaved(s[1..])
  }

  /** The interleaved decode loses nothing either, and keeps each I/Q pair together. */
  lemma {:induction false} DecodeU8InterleavedRoundTrip(raw: seq<byte>)
    requires |raw| % 2 == 0
    ensures DecodeU8Interleaved(raw).Some? && EncodeU8Interleaved(DecodeU8Interleaved(raw).value) == raw
  {
    var s := DecodeU8Interleaved(raw).value;
    var e := EncodeU8Interleaved(s);
    forall i | 0 <= i < |raw| ensures e[i] == raw[i] {
      var k := i / 2;
      U8RoundTrip(raw[i]);
      if i % 2 == 0 {
        assert i == 2 * k;
      } else {
        assert i == 2 * k + 1;
      }
    }
  }

  /** The planar split pairs bytes that are |raw|/2 apart: for the interleaved
      capture I0=0 Q0=255 I1=128 Q1=64 the first sample gets byte 2 (I1) as its
      Q component, while the interleaved decode gives it byte 1 (Q0). */
  lemma PlanarDecodeSplitsInterleavedPairs()
    ensures DecodeU8([0, 255, 128, 64]).value[0] == Complex(-0.5, 0.0)
    ensures DecodeU8Interleaved([0, 255, 128, 64]).value[0] == Complex(-0.5, MAX_COMPONENT)
    ensures DecodeU8([0, 255, 128, 64]) != DecodeU8Interleaved([0, 255, 128, 64])
  {
    var raw: seq<byte> := [0, 255, 128, 64];
    assert DecodeU8(raw).value[0] == Complex(U8ToReal(raw[0]), U8ToReal(raw[2]));
    assert DecodeU8Interleaved(raw).value[0] == Complex(U8ToReal(raw[0]), U8ToReal(raw[1]));
  }
}
