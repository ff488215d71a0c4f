/**
 The device-independent bitmap handed to Windows: rows bottom-up, pixels in BGR order,
 every row padded with zeros to a multiple of four bytes.
 Models src/wbcz/physical_printing.py, WindowsGdiRasterSpooler._bgr_bottom_up.
 */
module Raster {
  import opened Common

  datatype Image = Image(width: nat, height: nat, bpp: nat, pixels: seq<byte>)

  datatype RasterError = FinalRasterInvalid

  predicate WellFormed(image: Image) {
    image.bpp == 24 && |image.pixels| == image.width * image.height * 3
  }

  function RowBytes(image: Image): nat {
    image.width * 3
  }

  /** (row_bytes + 3) & ~3: clearing the two low bits subtracts the remainder modulo 4. */
  function Stride(image: Image): nat {
    (RowBytes(image) + 3) - (RowBytes(image) + 3) % 4
  }

  lemma StrideIsLeastMultipleOfFour(image: Image, m: nat)
    requires m % 4 == 0 && m >= RowBytes(image)
    ensures Stride(image) % 4 == 0 && RowBytes(image) <= Stride(image) <= m
  {
    LeastMultipleOfFour(RowBytes(image), m);
  }

  lemma LeastMultipleOfFour(n: nat, m: nat)
    requires m % 4 == 0 && m >= n
    ensures var s := (n + 3) - (n + 3) % 4;
            s % 4 == 0 && n <= s <= m
  {
    var q := (n + 3) / 4;
    assert (n + 3) - (n + 3) % 4 == 4 * q;
    assert m == 4 * (m / 4);
  }

  /** Multiplication facts used to index rows. */
  lemma RowBounds(y: nat, height: nat, size: nat)
    requires y < height
    ensures 0 <= y * size <= (y + 1) * size <= height * size
    ensures (y + 1) * size == y * size + size
  {
    assert (height - y - 1) * size >= 0;
    assert height * size == (y + 1) * size + (height - y - 1) * size;
  }

  lemma PixelCount(image: Image)
    ensures image.width * image.height * 3 == image.height * RowBytes(image)
  {
  }

  function SourceRow(image: Image, y: nat): (row: seq<byte>)
    requires WellFormed(image) && y < image.height
    ensures |row| == RowBytes(image)
  {
    RowBounds(y, image.height, RowBytes(image));
    PixelCount(image);
    image.pixels[y * RowBytes(image)..(y + 1) * RowBytes(image)]
  }

  /** Exchanges bytes 0 and 2 of every three-byte pixel. */
  function SwapRow(row: seq<byte>): (swapped: seq<byte>)
    requires |row| % 3 == 0
    ensures |swapped| == |row|
  {
    seq(|row|, i requires 0 <= i < |row| => row[i - i % 3 + 2 - i % 3])
  }

  /** The exchange is its own inverse on indices. */
  lemma SwapIndexTwice(i: nat)
    ensures var j := i - i % 3 + 2 - i % 3;
            j - j % 3 + 2 - j % 3 == i
  {
    var q := i / 3;
    assert i - i % 3 == 3 * q;
    assert (3 * q + 2 - i % 3) % 3 == 2 - i % 3;
  }

  lemma SwapRowTwice(row: seq<byte>)
    requires |row| % 3 == 0
    ensures SwapRow(SwapRow(row)) == row
  {
    forall i | 0 <= i < |row| ensures SwapRow(SwapRow(row))[i] == row[i] {
      SwapIndexTwice(i);
    }
  }

  lemma SwappedPixel(row: seq<byte>, x: nat)
    requires |row| % 3 == 0 && 3 * x + 2 < |row|
    ensures var swapped := SwapRow(row);
            swapped[3 * x] == row[3 * x + 2] && swapped[3 * x + 1] == row[3 * x + 1] && swapped[3 * x + 2] == row[3 * x]
  {
    assert (3 * x) % 3 == 0 && (3 * x + 1) % 3 == 1 && (3 * x + 2) % 3 == 2;
  }

  function Zeros(n: nat): (zeros: seq<byte>)
    ensures |zeros| == n
  {
    seq(n, _ => 0 as byte)
  }

  function DibRow(image: Image, y: nat): (row: seq<byte>)
    requires WellFormed(image) && y < image.height
    ensures |row| == Stride(image)
  {
    SwapRow(SourceRow(image, y)) + Zeros(Stride(image) - RowBytes(image))
  }

  /** The rows height-1 down to y, in that order. */
  function DibRowsFrom(image: Image, y: nat): seq<byte>
    requires WellFormed(image) && y <= image.height
    decreases image.height - y
  {
    if y == image.height then [] else DibRowsFrom(image, y + 1) + DibRow(image, y)
  }

  lemma {:induction false} DibRowsLength(image: Image, y: nat)
    requires WellFormed(image) && y <= image.height
    ensures |DibRowsFrom(image, y)| == (image.height - y) * Stride(image)
    decreases image.height - y
  {
    if y < image.height {
      DibRowsLength(image, y + 1);
      assert (image.height - y) * Stride(image) == (image.height - y - 1) * Stride(image) + Stride(image);
    }
  }

  /** Output row height-1-y is row y of the image. */
  lemma {:induction false} DibRowAt(image: Image, from: nat, y: nat)
    requires WellFormed(image) && from <= y < image.height
    ensures var n := image.height - 1 - y;
            0 <= n * Stride(image) <= (n + 1) * Stride(image) <= |DibRowsFrom(image, from)|
            && DibRowsFrom(image, from)[n * Stride(image)..(n + 1) * Stride(image)] == DibRow(image, y)
    decreases y - from
  {
    hide DibRow, Stride, WellFormed;
    var n, s := image.height - 1 - y, Stride(image);
    var rest, row := DibRowsFrom(image, from + 1), DibRow(image, from);
    DibRowsLength(image, from);
    DibRowsLength(image, from + 1);
    RowBounds(n, image.height - from, s);
    if from < y {
      DibRowAt(image, from + 1, y);
      SliceOfPrefix(rest, row, n * s, (n + 1) * s);
    } else {
      SliceOfSuffix(rest, row);
    }
  }

  lemma SliceOfPrefix(a: seq<byte>, b: seq<byte>, low: nat, high: nat)
    requires low <= high <= |a|
    ensures (a + b)[low..high] == a[low..high]
  {
  }

  lemma SliceOfSuffix(a: seq<byte>, b: seq<byte>)
    ensures (a + b)[|a|..|a| + |b|] == b
  {
  }

  /** Byte-level reading of one output row: channel order and padding. */
  lemma DibRowBytes(image: Image, y: nat, x: nat, k: nat)
    requires WellFormed(image) && y < image.height && x < image.width
    requires RowBytes(image) <= k < Stride(image)
    ensures var row, source := DibRow(image, y), SourceRow(image, y);
            && row[3 * x] == source[3 * x + 2]
            && row[3 * x + 1] == source[3 * x + 1]
            && row[3 * x + 2] == source[3 * x]
            && row[k] == 0
  {
    hide SwapRow, SourceRow, Stride;
    SwappedPixel(SourceRow(image, y), x);
  }

  /** The inverse conversion: reads the rows bottom-up, drops the padding, restores RGB. */
  function PixelsOfDib(dib: seq<byte>, image: Image, y: nat): seq<byte>
    requires y <= image.height && |dib| == image.height * Stride(image)
  {
    if y == 0 then []
    else
      RowBounds(image.height - y, image.height, Stride(image));
      var start := (image.height - y) * Stride(image);
      PixelsOfDib(dib, image, y - 1) + SwapRow(dib[start..start + RowBytes(image)])
  }

  lemma InverseOfRow(image: Image, y: nat, row: seq<byte>)
    requires WellFormed(image) && y < image.height && row == DibRow(image, y)
    ensures SwapRow(row[..RowBytes(image)]) == SourceRow(image, y)
  {
    assert row[..RowBytes(image)] == SwapRow(SourceRow(image, y));
    SwapRowTwice(SourceRow(image, y));
  }

  lemma SubSlice(s: seq<byte>, a: nat, b: nat, n: nat)
    requires a + n <= b <= |s|
    ensures s[a..b][..n] == s[a..a + n]
  {
  }

  lemma InverseStep(image: Image, y: nat, out: seq<byte>)
    requires WellFormed(image) && 0 < y <= image.height
    requires out == DibRowsFrom(image, 0) && |out| == image.height * Stride(image)
    ensures PixelsOfDib(out, image, y) == PixelsOfDib(out, image, y - 1) + SourceRow(image, y - 1)
  {
    hide SwapRow, SourceRow, DibRow;
    var n, s := image.height - y, Stride(image);
    RowBounds(n, image.height, s);
    DibRowAt(image, 0, y - 1);
    InverseOfRow(image, y - 1, out[n * s..(n + 1) * s]);
    SubSlice(out, n * s, (n + 1) * s, RowBytes(image));
  }

  lemma {:induction false} InverseRecoversPixels(image: Image, y: nat)
    requires WellFormed(image) && y <= image.height
    ensures |DibRowsFrom(image, 0)| == image.height * Stride(image)
    ensures 0 <= y * RowBytes(image) <= |image.pixels|
    ensures PixelsOfDib(DibRowsFrom(image, 0), image, y) == image.pixels[..y * RowBytes(image)]
  {
    DibRowsLength(image, 0);
    PixelCount(image);
    if y > 0 {
      InverseRecoversPixels(image, y - 1);
      RowBounds(y - 1, image.height, RowBytes(image));
      InverseStep(image, y, DibRowsFrom(image, 0));
    }
  }

  /** The whole image survives the round trip through the bitmap. */
  lemma BitmapRoundTrip(image: Image)
    requires WellFormed(image)
    ensures |DibRowsFrom(image, 0)| == image.height * Stride(image)
    ensures PixelsOfDib(DibRowsFrom(image, 0), image, image.height) == image.pixels
  {
    InverseRecoversPixels(image, image.height);
    PixelCount(image);
  }

  /** One row: the loop over x that fills the bytearray. */
  method SwapPixels(row: seq<byte>) returns (bgr: seq<byte>)
    requires |row| % 3 == 0
    ensures bgr == SwapRow(row)
  {
    var buffer := new byte[|row|];
    var x := 0;
    while x < |row|
      invariant 0 <= x <= |row| && x % 3 == 0
      invariant forall i :: 0 <= i < x ==> buffer[i] == row[i - i % 3 + 2 - i % 3]
    {
      buffer[x] := row[x + 2];
      buffer[x + 1] := row[x + 1];
      buffer[x + 2] := row[x];
      x := x + 3;
    }
    bgr := buffer[..];
  }

  /** One iteration of the outer loop: row y, swapped and padded. */
  method ConvertRow(image: Image, y: nat, padding: seq<byte>) returns (row: seq<byte>)
    requires WellFormed(image) && y < image.height
    requires padding == Zeros(Stride(image) - RowBytes(image))
    ensures row == DibRow(image, y)
  {
    var rowBytes := RowBytes(image);
    RowBounds(y, image.height, rowBytes);
    PixelCount(image);
    var bgr := SwapPixels(image.pixels[y * rowBytes..(y + 1) * rowBytes]);
    row := bgr + padding;
  }

  method BgrBottomUp(image: Image) returns (r: Result<(seq<byte>, nat), RasterError>)
    ensures r.Ok? <==> WellFormed(image)
    ensures r.Ok? ==> r.value == (DibRowsFrom(image, 0), Stride(image))
  {
    if image.bpp != 24 || |image.pixels| != image.width * image.height * 3 {
      return Err(FinalRasterInvalid);
    }
    var padding := Zeros(Stride(image) - RowBytes(image));
    var rows: seq<byte> := [];
    var y := image.height;
    while y > 0
      invariant 0 <= y <= image.height
      invariant rows == DibRowsFrom(image, y)
    {
      y := y - 1;
      var row := ConvertRow(image, y, padding);
      rows := rows + row;
    }
    return Ok((rows, Stride(image)));
  }
}
