/** The colour normaliser: nearest-pixel resampling of the sensor's 1920x1080
    RGBA frame down to the consumer's 640x480 image. */
module ColorResample {
  import opened FrameTypes

  /** The source row for output row r, floor(r * 2.25), in exact integer form. */
  function SrcRow(r: nat): (row: nat)
    requires r < OutHeight
    ensures 4 * row <= 9 * r < 4 * row + 4
    ensures row <= 1077 && row < NativeHeight
  {
    (9 * r) / 4
  }

  /** The source column for output column c: every third native column. */
  function SrcCol(c: nat): (col: nat)
    requires c < OutWidth
    ensures col <= 1917 && col < NativeWidth
  {
    3 * c
  }

  /** Byte offset of the first channel of the native pixel sampled for output
      pixel (r, c): it starts a whole pixel, and all four channels lie inside
      the native frame. */
  function SrcIndex(r: nat, c: nat): (b: nat)
    requires r < OutHeight && c < OutWidth
    ensures b % BytesPerPixel == 0
    ensures b + 3 < ColorBytes
  {
    4 * (1920 * SrcRow(r) + SrcCol(c))
  }

  /** Position of output pixel (r, c) in the row-major output buffer; the
      position determines the pixel, so no two pixels share a slot. */
  function OutIndex(r: nat, c: nat): (i: nat)
    requires r < OutHeight && c < OutWidth
    ensures i < OutPixels
    ensures i / OutWidth == r && i % OutWidth == c
  {
    r * 640 + c
  }

  /** Every slot of the output buffer is the position of some output pixel. */
  lemma OutIndexOnto(i: nat)
    requires i < OutPixels
    ensures i / OutWidth < OutHeight && i % OutWidth < OutWidth
    ensures OutIndex(i / OutWidth, i % OutWidth) == i
  {
  }

  /** The output pixel (r, c): the four bytes of the sampled native pixel, in
      the frame's RGBA channel order. */
  function PixelAt(big: seq<byte>, r: nat, c: nat): (px: RGBA)
    requires |big| == ColorBytes
    requires r < OutHeight && c < OutWidth
    ensures forall k :: 0 <= k < BytesPerPixel ==> Channel(px, k) == big[SrcIndex(r, c) + k]
  {
    var b := SrcIndex(r, c);
    RGBA(big[b], big[b + 1], big[b + 2], big[b + 3])
  }

  /** The whole resampled output image, in row-major order. */
  function Downsampled(big: seq<byte>): (out: seq<RGBA>)
    requires |big| == ColorBytes
    ensures |out| == OutPixels
  {
    seq(OutPixels, i requires 0 <= i < OutPixels => PixelAt(big, i / OutWidth, i % OutWidth))
  }

  /** Output slot OutIndex(r, c) of the resampled image holds pixel (r, c). */
  lemma DownsampledAt(big: seq<byte>, r: nat, c: nat)
    requires |big| == ColorBytes
    requires r < OutHeight && c < OutWidth
    ensures Downsampled(big)[OutIndex(r, c)] == PixelAt(big, r, c)
  {
  }

  /** The channel of a pixel selected by k % 4, in RGBA byte order. */
  function Channel(p: RGBA, k: nat): byte
  {
    match k % 4
    case 0 => p.r
    case 1 => p.g
    case 2 => p.b
    case _ => p.a
  }

  /** A native frame filled with one colour resamples to an image of that colour. */
  lemma SolidFrameResamplesSolid(big: seq<byte>, p: RGBA)
    requires |big| == ColorBytes
    requires forall k :: 0 <= k < |big| ==> big[k] == Channel(p, k)
    ensures forall i :: 0 <= i < OutPixels ==> Downsampled(big)[i] == p
  {
    forall i | 0 <= i < OutPixels
      ensures Downsampled(big)[i] == p
    {
      var b := SrcIndex(i / OutWidth, i % OutWidth);
      assert Channel(p, b) == p.r && Channel(p, b + 1) == p.g;
      assert Channel(p, b + 2) == p.b && Channel(p, b + 3) == p.a;
    }
  }

  /** The resampling loop: writes every pixel of the first 640*480 slots of `rgb`
      from the converted native frame and leaves the rest of `rgb` alone. */
  method Resample(rgb: array<RGBA>, big: seq<byte>)
    requires |big| == ColorBytes
    requires rgb.Length >= OutPixels
    modifies rgb
    ensures rgb[..] == Downsampled(big) + old(rgb[OutPixels..])
  {
    var r := 0;
    while r < OutHeight
      invariant 0 <= r <= OutHeight
      invariant forall i :: 0 <= i < r * OutWidth ==> rgb[i] == Downsampled(big)[i]
      invariant forall i :: r * OutWidth <= i < rgb.Length ==> rgb[i] == old(rgb[i])
    {
      var c := 0;
      while c < OutWidth
        invariant 0 <= c <= OutWidth
        invariant forall i :: 0 <= i < r * OutWidth + c ==> rgb[i] == Downsampled(big)[i]
        invariant forall i :: r * OutWidth + c <= i < rgb.Length ==> rgb[i] == old(rgb[i])
      {
        var b := SrcIndex(r, c);
        DownsampledAt(big, r, c);
        rgb[OutIndex(r, c)] := RGBA(big[b], big[b + 1], big[b + 2], big[b + 3]);
        c := c + 1;
      }
      r := r + 1;
    }
    assert rgb[..] == Downsampled(big) + old(rgb[OutPixels..]);
  }
}
