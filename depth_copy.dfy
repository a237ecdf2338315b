/** The depth normaliser: copies the sensor's 512x424 unsigned 16-bit samples
    into the consumer's signed 16-bit depth image without resampling. */
module DepthCopy {
  import opened FrameTypes

  /** The implicit ushort-to-short conversion of the copy: the same 16 bits read
      as a two's-complement value. */
  function ToInt16(u: uint16): (s: int16)
    ensures (s as int - u as int) % 0x1_0000 == 0
    ensures u < 0x8000 ==> s as int == u as int
    ensures u >= 0x8000 ==> s < 0
  {
    if u < 0x8000 then u as int16 else (u as int - 0x1_0000) as int16
  }

  /** Reading a short's bits back as unsigned. */
  function ToUint16(s: int16): (u: uint16)
    ensures (u as int - s as int) % 0x1_0000 == 0
  {
    if s >= 0 then s as uint16 else (s as int + 0x1_0000) as uint16
  }

  /** The conversion loses no information: every raw sample can be recovered
      from the stored value, and every stored value comes from exactly one sample. */
  lemma ReinterpretRoundTrip(u: uint16, s: int16)
    ensures ToUint16(ToInt16(u)) == u
    ensures ToInt16(ToUint16(s)) == s
  {
  }

  /** The depth image the copy produces from the first DepthPixels raw samples. */
  function Converted(samples: seq<uint16>): (out: seq<int16>)
    requires |samples| >= DepthPixels
    ensures |out| == DepthPixels
    ensures forall i :: 0 <= i < DepthPixels ==> ToUint16(out[i]) == samples[i]
  {
    seq(DepthPixels, i requires 0 <= i < DepthPixels => ToInt16(samples[i]))
  }

  /** The copy loop: slots below DepthPixels receive the converted samples;
      slots beyond are not written. */
  method Copy(depth: array<int16>, samples: seq<uint16>)
    requires |samples| >= DepthPixels
    requires depth.Length >= DepthPixels
    modifies depth
    ensures depth[..] == Converted(samples) + old(depth[DepthPixels..])
  {
    var i := 0;
    while i < DepthWidth * DepthHeight
      invariant 0 <= i <= DepthPixels
      invariant forall k :: 0 <= k < i ==> depth[k] == ToInt16(samples[k])
      invariant forall k :: i <= k < depth.Length ==> depth[k] == old(depth[k])
    {
      var depthPix := samples[i];
      depth[i] := ToInt16(depthPix);
      i := i + 1;
    }
    assert depth[..] == Converted(samples) + old(depth[DepthPixels..]);
  }
}
