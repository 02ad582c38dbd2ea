/**
 * The game's texture loader: it converts the ARGB pixels of a decoded image
 * into the RGBA bytes it uploads. It walks x in the outer loop and y in the
 * inner one and reads pixel x * width + y, which is row-major order only
 * for square images.
 */
module GameTexture {
  import opened Wrappers
  import opened Argb

  /** A decoded image: width, height and getRGB's row-major ARGB pixels. */
  datatype Image = Image(width: nat, height: nat, argb: seq<bv32>)

  predicate WellFormed(image: Image) {
    |image.argb| == image.width * image.height
  }

  /** A loaded texture: its size and the bytes handed to glTexImage2D. */
  datatype Texture = Texture(width: nat, height: nat, pixelData: seq<bv8>)

  datatype TextureError =
    | NoImage             // the image could not be read, so the width lookup fails
    | PixelOutOfBounds    // the loop read past the pixel array

  /** The pixel index the loop reads at column x, step y. */
  function ReadIndex(width: nat, x: nat, y: nat): nat {
    x * width + y
  }

  /** Every index the loop reads lies inside the width * height pixel array. */
  predicate ReadsInBounds(width: nat, height: nat) {
    forall x, y :: 0 <= x < width && 0 <= y < height ==> ReadIndex(width, x, y) < width * height
  }

  /** The pixel at index i, or 0 past the end (a read the loop never completes). */
  function PixelAt(pixels: seq<bv32>, i: nat): bv32 {
    if i < |pixels| then pixels[i] else 0
  }

  /** The pixels the inner loop reads for column x. */
  function Column(pixels: seq<bv32>, width: nat, height: nat, x: nat): (r: seq<bv32>)
    ensures |r| == height
  {
    seq(height, y requires 0 <= y => PixelAt(pixels, ReadIndex(width, x, y)))
  }

  /** The pixels the loops read for the first n columns, in reading order. */
  function ColumnReads(pixels: seq<bv32>, width: nat, height: nat, n: nat): (r: seq<bv32>)
    ensures |r| == n * height
  {
    if n == 0 then [] else ColumnReads(pixels, width, height, n - 1) + Column(pixels, width, height, n - 1)
  }

  /** The index the loop reads for (x, y) is the (x * height + y)-th pixel it emits. */
  lemma {:induction false} ColumnReadsAt(pixels: seq<bv32>, width: nat, height: nat, n: nat, x: nat, y: nat)
    requires x < n && y < height
    ensures x * height + y < n * height
    ensures ColumnReads(pixels, width, height, n)[x * height + y] == PixelAt(pixels, ReadIndex(width, x, y))
  {
    var front := ColumnReads(pixels, width, height, n - 1);
    if x < n - 1 {
      ColumnReadsAt(pixels, width, height, n - 1, x, y);
      assert (n - 1) * height <= n * height;
    } else {
      assert x * height == |front|;
    }
  }

  /** a <= b implies a * c <= b * c. */
  lemma MulMonotone(a: nat, b: nat, c: nat)
    requires a <= b
    ensures a * c <= b * c
  {
  }

  /** On an image no wider than tall, read (x, y) stays below width * height. */
  lemma ReadStaysInside(width: nat, height: nat, x: nat, y: nat)
    requires x < width <= height && y < height
    ensures ReadIndex(width, x, y) < width * height
  {
    MulMonotone(x, width - 1, width);
    MulMonotone(width, height, width - 1);
    assert (width - 1) * height == width * height - height;
  }

  /** On an image wider than tall, the last read is past the end. */
  lemma LastReadOutside(width: nat, height: nat)
    requires 0 < height < width
    ensures ReadIndex(width, width - 1, height - 1) >= width * height
  {
    MulMonotone(height + 1, width, width - 1);
    assert (width - 1) * (height + 1) == width * height - height + width - 1;
  }

  /** For non-empty images the reads stay in bounds exactly when the image is
      no wider than it is tall. */
  lemma ReadsInBoundsIff(width: nat, height: nat)
    requires width > 0 && height > 0
    ensures ReadsInBounds(width, height) <==> width <= height
  {
    if width <= height {
      forall x, y | 0 <= x < width && 0 <= y < height
        ensures ReadIndex(width, x, y) < width * height
      {
        ReadStaysInside(width, height, x, y);
      }
    } else {
      LastReadOutside(width, height);
    }
  }

  /** Column m of a square image is the m-th run of n pixels. */
  lemma SquareColumn(pixels: seq<bv32>, n: nat, m: nat, start: nat)
    requires |pixels| == n * n && m < n && start == m * n
    ensures start + n <= |pixels|
    ensures Column(pixels, n, n, m) == pixels[start..start + n]
  {
    MulMonotone(m + 1, n, n);
    var column := Column(pixels, n, n, m);
    forall y | 0 <= y < n
      ensures column[y] == pixels[start + y]
    {
      assert ReadIndex(n, m, y) == start + y;
    }
  }

  /** A square image is read in row-major order: pixel k is the k-th emitted. */
  lemma {:induction false} SquareReadsInOrder(pixels: seq<bv32>, n: nat, m: nat)
    requires |pixels| == n * n && m <= n
    ensures m * n <= |pixels|
    ensures ColumnReads(pixels, n, n, m) == pixels[..m * n]
  {
    MulMonotone(m, n, n);
    if m > 0 {
      SquareReadsInOrder(pixels, n, m - 1);
      var start := (m - 1) * n;
      assert start + n == m * n;
      SquareColumn(pixels, n, m - 1, start);
      assert pixels[..m * n] == pixels[..start] + pixels[start..start + n];
    }
  }

  /** A 2 x 1 image: the last read, index 2, is past its two pixels. */
  lemma WideImageReadsPastEnd()
    ensures !ReadsInBounds(2, 1)
    ensures ReadIndex(2, 1, 0) == 2
  {
    assert ReadIndex(2, 1, 0) >= 2 * 1;
  }

  /** On an image taller than wide (and wider than 1), the pixel at index
      width is emitted twice: as (0, width) and as (1, 0). */
  lemma TallImageRepeatsPixel(pixels: seq<bv32>, width: nat, height: nat)
    requires 1 < width < height && |pixels| == width * height
    ensures width < height < |ColumnReads(pixels, width, height, width)|
    ensures ColumnReads(pixels, width, height, width)[width] == pixels[width]
    ensures ColumnReads(pixels, width, height, width)[height] == pixels[width]
  {
    MulMonotone(2, width, height);
    ColumnReadsAt(pixels, width, height, width, 0, width);
    ColumnReadsAt(pixels, width, height, width, 1, 0);
  }

  /** ... and the last pixel of such an image is never read. */
  lemma TallImageSkipsLastPixel(width: nat, height: nat, x: nat, y: nat)
    requires 1 < width < height && x < width && y < height
    ensures ReadIndex(width, x, y) < width * height - 1
  {
    MulMonotone(x, width - 1, width);
    MulMonotone(width, height - 1, width - 1);
    assert (width - 1) * (height - 1) + height - 1 == width * (height - 1);
    assert width * (height - 1) == width * height - width;
  }

  lemma ColumnFits(x: nat, width: nat, height: nat)
    requires x < width
    ensures x * height + height == (x + 1) * height <= width * height
  {
    MulMonotone(x + 1, width, height);
  }

  /** The bytes of done and the first y + 1 pixels of column: those of the
      first y pixels, then those of pixel y. */
  lemma RgbaBytesGrow(done: seq<bv32>, column: seq<bv32>, y: nat)
    requires y < |column|
    ensures RgbaBytes(done + column[..y + 1]) == RgbaBytes(done + column[..y]) + RgbaOf(column[y])
  {
    assert done + column[..y + 1] == (done + column[..y]) + [column[y]];
    RgbaBytesSnoc(done + column[..y], column[y]);
  }

  /** The inner loop for column x, whose pixels are emitted from pixel
      position on; it stops at the first read past the end. */
  method ConvertColumn(rawPixels: seq<bv32>, width: nat, height: nat, x: nat,
                       position: nat, pixels: array<bv8>, ghost done: seq<bv32>)
      returns (inBounds: bool)
    requires |rawPixels| == width * height && pixels.Length == 4 * |rawPixels|
    requires position + height <= |rawPixels|
    requires pixels[..4 * position] == RgbaBytes(done)
    modifies pixels
    ensures inBounds <==> forall j :: 0 <= j < height ==> ReadIndex(width, x, j) < width * height
    ensures inBounds ==>
      pixels[..4 * (position + height)] == RgbaBytes(done + Column(rawPixels, width, height, x))
  {
    var column := Column(rawPixels, width, height, x);
    var y := 0;
    assert done + column[..0] == done;
    while y < height
      invariant 0 <= y <= height
      invariant forall j :: 0 <= j < y ==> ReadIndex(width, x, j) < width * height
      invariant pixels[..4 * (position + y)] == RgbaBytes(done + column[..y])
    {
      var index := ReadIndex(width, x, y);
      if index >= |rawPixels| {
        assert ReadIndex(width, x, y) >= width * height;
        return false;
      }
      var pixel := rawPixels[index];
      PutPixel(pixels, 4 * (position + y), pixel);
      assert column[y] == pixel;
      RgbaBytesGrow(done, column, y);
      y := y + 1;
    }
    assert column[..height] == column;
    return true;
  }

  /** The conversion loop as written: x outer, y inner, reading pixel
      x * width + y and putting its R, G, B, A bytes. A read past the end
      throws, which the loader reports as PixelOutOfBounds. */
  method ConvertPixels(rawPixels: seq<bv32>, width: nat, height: nat) returns (pixels: array<bv8>, inBounds: bool)
    requires |rawPixels| == width * height
    ensures fresh(pixels) && pixels.Length == 4 * |rawPixels|
    ensures inBounds <==> ReadsInBounds(width, height)
    ensures inBounds ==> pixels[..] == RgbaBytes(ColumnReads(rawPixels, width, height, width))
  {
    pixels := new bv8[|rawPixels| * 4];
    var position: nat := 0;
    var x := 0;
    while x < width
      invariant 0 <= x <= width
      invariant position == x * height <= width * height
      invariant forall i, j :: 0 <= i < x && 0 <= j < height ==> ReadIndex(width, i, j) < width * height
      invariant pixels[..4 * position] == RgbaBytes(ColumnReads(rawPixels, width, height, x))
    {
      ColumnFits(x, width, height);
      var columnInBounds := ConvertColumn(rawPixels, width, height, x, position, pixels,
                                          ColumnReads(rawPixels, width, height, x));
      if !columnInBounds {
        return pixels, false;
      }
      position := position + height;
      x := x + 1;
    }
    assert pixels[..] == pixels[..4 * position];
    return pixels, true;
  }

  /** The loader as written: a missing image fails at the width lookup, and a
      wide image fails in the conversion loop. */
  method LoadTexture(image: Option<Image>) returns (r: Result<Texture, TextureError>)
    requires image.Some? ==> WellFormed(image.value)
    ensures image.None? ==> r == Err(NoImage)
    ensures image.Some? ==>
      var img := image.value;
      if ReadsInBounds(img.width, img.height)
      then r == Ok(Texture(img.width, img.height, RgbaBytes(ColumnReads(img.argb, img.width, img.height, img.width))))
      else r == Err(PixelOutOfBounds)
  {
    if image.None? {
      return Err(NoImage);
    }
    var img := image.value;
    var pixels, inBounds := ConvertPixels(img.argb, img.width, img.height);
    if !inBounds {
      return Err(PixelOutOfBounds);
    }
    return Ok(Texture(img.width, img.height, pixels[..]));
  }

  /** The loader as intended: the pixels in row-major order, for every size. */
  method IntendedLoadTexture(image: Option<Image>) returns (r: Result<Texture, TextureError>)
    requires image.Some? ==> WellFormed(image.value)
    ensures image.None? ==> r == Err(NoImage)
    ensures image.Some? ==>
      r == Ok(Texture(image.value.width, image.value.height, RgbaBytes(image.value.argb)))
  {
    if image.None? {
      return Err(NoImage);
    }
    var img := image.value;
    var pixels := PackPixels(img.argb, img.width, img.height);
    return Ok(Texture(img.width, img.height, pixels[..]));
  }

  /** On square images the loader as written and the intended one agree. */
  lemma SquareTexturesAgree(image: Image)
    requires WellFormed(image) && image.width == image.height
    ensures ReadsInBounds(image.width, image.height)
    ensures ColumnReads(image.argb, image.width, image.height, image.width) == image.argb
  {
    var n := image.width;
    if n > 0 {
      ReadsInBoundsIff(n, n);
    }
    SquareReadsInOrder(image.argb, n, n);
    assert image.argb[..n * n] == image.argb;
  }
}
