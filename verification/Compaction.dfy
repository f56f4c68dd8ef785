/**
 `reduceRgbaToRgb`: four bytes a pixel become three, in the same buffer, the
 write position trailing the read position.
 */
module Compaction {
  const RGBA_BYTES := 4
  const RGB_BYTES := 3

  /** The first `pixels` pixels without their fourth byte. */
  function Rgb<T>(bytes: seq<T>, pixels: nat): (rgb: seq<T>)
    requires RGBA_BYTES * pixels <= |bytes|
    ensures |rgb| == RGB_BYTES * pixels
  {
    if pixels == 0 then []
    else Rgb(bytes, pixels - 1) + bytes[RGBA_BYTES * (pixels - 1)..RGBA_BYTES * (pixels - 1) + RGB_BYTES]
  }

  /** Byte c of pixel i of the result is byte c of pixel i of the source. */
  lemma {:induction false} RgbBytes<T>(bytes: seq<T>, pixels: nat, i: nat, c: nat)
    requires RGBA_BYTES * pixels <= |bytes| && i < pixels && c < RGB_BYTES
    ensures RGB_BYTES * i + c < |Rgb(bytes, pixels)|
    ensures Rgb(bytes, pixels)[RGB_BYTES * i + c] == bytes[RGBA_BYTES * i + c]
  {
    if i < pixels - 1 {
      RgbBytes(bytes, pixels - 1, i, c);
    }
  }

  /** Despite the overlap: the prefix is the compacted image, the rest is as it was. */
  method ReduceRgbaToRgb(buf: array<bv8>, pixelCount: nat)
    requires RGBA_BYTES * pixelCount <= buf.Length
    modifies buf
    ensures buf[..RGB_BYTES * pixelCount] == Rgb(old(buf[..]), pixelCount)
    ensures buf[RGB_BYTES * pixelCount..] == old(buf[RGB_BYTES * pixelCount..])
  {
    hide Rgb;
    ghost var was := buf[..];
    var write, read := 0, 0;
    for i := 0 to pixelCount
      invariant write == RGB_BYTES * i && read == RGBA_BYTES * i
      invariant forall j :: 0 <= j < write ==> buf[j] == Rgb(was, i)[j]
      invariant forall j :: write <= j < buf.Length ==> buf[j] == was[j]
    {
      RgbNext(was, i);
      buf[write] := buf[read];
      buf[write + 1] := buf[read + 1];
      buf[write + 2] := buf[read + 2];
      write := write + RGB_BYTES;
      read := read + RGBA_BYTES;
    }
    assert buf[..write] == Rgb(was, pixelCount);
  }

  lemma RgbNext<T>(bytes: seq<T>, i: nat)
    requires RGBA_BYTES * (i + 1) <= |bytes|
    ensures forall j :: 0 <= j < RGB_BYTES * i ==> Rgb(bytes, i + 1)[j] == Rgb(bytes, i)[j]
    ensures Rgb(bytes, i + 1)[RGB_BYTES * i] == bytes[RGBA_BYTES * i]
    ensures Rgb(bytes, i + 1)[RGB_BYTES * i + 1] == bytes[RGBA_BYTES * i + 1]
    ensures Rgb(bytes, i + 1)[RGB_BYTES * i + 2] == bytes[RGBA_BYTES * i + 2]
  {
  }

  /** The index, in pixels, at which a buffer of this stride keeps pixel (x, y). */
  function PixelIndex(stride: nat, x: nat, y: nat): nat {
    y * stride + x
  }

  lemma RowsFit(width: nat, height: nat, x: nat, y: nat)
    requires x < width && y < height
    ensures PixelIndex(width, x, y) < width * height
  {
    assert (y + 1) * width <= height * width;
  }

  /**
   As it is called, with width * height pixels, the output is read row by row
   with no gap. Its pixel (x, y) comes from pixel (x, y) of the buffer exactly
   when the buffer's rows have no gap either, or in the first row.
   */
  lemma OutputPixel<T>(bytes: seq<T>, width: nat, height: nat, stride: nat, x: nat, y: nat, c: nat)
    requires RGBA_BYTES * (width * height) <= |bytes| && x < width && y < height && c < RGB_BYTES
    ensures PixelIndex(width, x, y) < width * height
    ensures RGB_BYTES * PixelIndex(width, x, y) + c < |Rgb(bytes, width * height)|
    ensures Rgb(bytes, width * height)[RGB_BYTES * PixelIndex(width, x, y) + c] == bytes[RGBA_BYTES * PixelIndex(width, x, y) + c]
    ensures PixelIndex(width, x, y) == PixelIndex(stride, x, y) <==> stride == width || y == 0
  {
    RowsFit(width, height, x, y);
    RgbBytes(bytes, width * height, PixelIndex(width, x, y), c);
    if y > 0 && stride != width {
      SameProduct(y, width, stride);
    }
  }

  lemma SameProduct(y: nat, a: nat, b: nat)
    requires y > 0 && a != b
    ensures y * a != y * b
  {
  }
}
