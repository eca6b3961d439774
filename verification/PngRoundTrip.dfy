// Image jobs end to end: pixels filtered and compressed, then inflated and unfiltered. Chunk
// framing and checksums lie in between and are not modelled.
module PngRoundTrip {
  import opened Base
  import opened PngFilter
  import opened Deflate
  import opened Tokens
  import opened StretchyBuffer
  import W = PngWriter
  import R = PngReader
  import Z = ZBuf
  import T = ZlibRoundTrip

  /** The ints of the row loop are in range: the size of the filtered image, the offset of the last
      row, and the estimates for the filters. */
  ghost predicate IntsFit(pixels: seq<Byte>, stride: nat, w: nat, n: nat, y: nat, filter: int)
    requires 1 <= n && 1 <= y && forall j :: 0 <= j < y ==> stride * j + w <= |pixels|
  {
    && At(y, w + 1) <= W.INT_MAX && stride * (y - 1) <= W.INT_MAX
    && forall j :: 0 <= j < y ==> W.RowFits(pixels, stride, w, n, filter, j)
  }

  /** Byte i of row j: rows follow each other in the image, and are a stride apart in the pixels. */
  predicate SamePixel(image: seq<Byte>, pixels: seq<Byte>, stride: nat, w: nat, j: nat, i: nat)
  {
    j * w + i < |image| && stride * j + i < |pixels| && image[j * w + i] == pixels[stride * j + i]
  }

  /** The image is the pixels without what lies between the rows. */
  ghost predicate SamePixels(image: seq<Byte>, pixels: seq<Byte>, stride: nat, w: nat, y: nat)
  {
    |image| == y * w && forall j, i :: 0 <= j < y && 0 <= i < w ==> SamePixel(image, pixels, stride, w, j, i)
  }

  lemma ShownIsSame(image: seq<Byte>, pixels: seq<Byte>, stride: nat, w: nat, y: nat)
    requires forall j :: 0 <= j < y ==> stride * j + w <= |pixels|
    requires R.Shows(image, W.RowsOf(pixels, stride, w, y), w)
    ensures SamePixels(image, pixels, stride, w, y)
  {
    var rows := W.RowsOf(pixels, stride, w, y);
    forall j, i | 0 <= j < y && 0 <= i < w ensures SamePixel(image, pixels, stride, w, j, i) {
      assert R.ShowsByte(image, rows, w, j, i) && rows[j] == W.RowAt(pixels, stride * j, w);
    }
  }

  /** The pixels written are the pixels read, for every choice of filter and compression level with
      which the compressor computes within the range of int. */
  method SaveAndLoad(pixels: seq<Byte>, strideBytes: nat, x: nat, y: nat, n: nat, filter: int, level: int, size: nat)
      returns (status: Z.Status, result: R.Status, image: array<Byte>, ghost filt: seq<Byte>, ghost sent: seq<Byte>,
               ghost fixed: seq<Byte>, ghost ts: seq<Token>, ghost zeros: Bits)
    requires 1 <= n && 1 <= x && 1 <= y && 1 <= size <= Z.UINT_MAX
    requires forall j :: 0 <= j < y ==> W.Stride(strideBytes, x * n) * j + x * n <= |pixels|
    requires IntsFit(pixels, W.Stride(strideBytes, x * n), x * n, n, y, filter)
    ensures |filt| == At(y, x * n + 1) && T.Compressed(filt, level, sent, fixed, ts, zeros)
    ensures T.IntsFit(|filt|, level) ==> T.IntsInRange(filt, level, ts, Capacity(Max(|fixed|, |sent|)))
    ensures T.IntsInRange(filt, level, ts, Capacity(Max(|fixed|, |sent|))) ==>
      && status == Z.Ok && result == R.Ok
      && SamePixels(image[..], pixels, W.Stride(strideBytes, x * n), x * n, y)
  {
    hide T.Compressed, T.IntsInRange, T.IntsFit, Capacity, W.RowFits, R.Shows, SamePixels;
    var encoded, filters := W.FilterRows(pixels, strideBytes, x, y, n, filter);
    filt := encoded[..];
    ghost var w, stride := x * n, W.Stride(strideBytes, x * n);
    AtGrows(1, y, w + 1);
    assert At(1, w + 1) == At(0, w + 1) + w + 1;
    var raw;
    status, raw, sent, fixed, ts, zeros := T.RoundTrip(encoded[..], level, size);
    R.PixelsRoundTrip(pixels, stride, w, n, y, filters, []);
    assert filt + [] == filt;
    AtIsProduct(y, w + 1);
    result, image := R.CreateImageRaw(raw, n, x, y);
    if raw == filt { ShownIsSame(image[..], pixels, stride, w, y); }
  }
}
