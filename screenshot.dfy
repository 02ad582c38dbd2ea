/**
 * A screenshot of the game window. OpenGL reads the front buffer back as
 * RGBA bytes, bottom row first; the screenshot is an ARGB image whose first
 * row is the top of the window.
 */
module Screenshot {
  import opened Argb

  /** The window size the screenshot reads back (the game's WIDTH and HEIGHT). */
  const WindowWidth: nat := 720
  const WindowHeight: nat := 480

  /** The image row that source row y lands on: the rows are flipped vertically. */
  function FlippedRow(height: nat, y: nat): (row: nat)
    requires y < height
    ensures row < height
  {
    height - (y + 1)
  }

  /** Flipping twice gives the row back, so the flip is a bijection on rows. */
  lemma FlipIsInvolution(height: nat, y: nat)
    requires y < height
    ensures FlippedRow(height, FlippedRow(height, y)) == y
  {
  }

  /** Two source rows land on the same image row only if they are the same row. */
  lemma FlipIsInjective(height: nat, y1: nat, y2: nat)
    requires y1 < height && y2 < height
    ensures FlippedRow(height, y1) == FlippedRow(height, y2) <==> y1 == y2
  {
  }

  /** Where the bytes of source pixel (x, y) start in the read-back buffer. */
  function ByteOffset(width: nat, x: nat, y: nat): nat {
    (x + width * y) * 4
  }

  /** A buffer of width * height * 4 bytes holds all four bytes of every pixel. */
  lemma OffsetInBounds(width: nat, height: nat, x: nat, y: nat)
    requires x < width && y < height
    ensures ByteOffset(width, x, y) + 4 <= width * height * 4
  {
    assert x + width * y < width * (y + 1);
    assert width * (y + 1) <= width * height;
  }

  /** The ARGB value written for source pixel (x, y): its red, green and blue
      bytes under an alpha of 0xFF. */
  function SourcePixel(data: seq<bv8>, width: nat, height: nat, x: nat, y: nat): bv32
    requires |data| == width * height * 4 && x < width && y < height
  {
    OffsetInBounds(width, height, x, y);
    var i := ByteOffset(width, x, y);
    Pack(0xFF, data[i], data[i + 1], data[i + 2])
  }

  /** The value the screenshot holds at column x, row `row`. */
  function ImagePixel(data: seq<bv8>, width: nat, height: nat, x: nat, row: nat): bv32
    requires |data| == width * height * 4 && x < width && row < height
  {
    SourcePixel(data, width, height, x, FlippedRow(height, row))
  }

  /** Reading the image pixel of source pixel (x, y) back as RGBA bytes gives
      the source's red, green and blue bytes and an opaque alpha: the source
      alpha byte is ignored. */
  lemma {:induction false} ImagePixelReadsBack(data: seq<bv8>, width: nat, height: nat, x: nat, y: nat)
    requires |data| == width * height * 4 && x < width && y < height
    ensures ByteOffset(width, x, y) + 4 <= |data|
    ensures RgbaOf(ImagePixel(data, width, height, x, FlippedRow(height, y)))
      == data[ByteOffset(width, x, y)..ByteOffset(width, x, y) + 3] + [0xFF]
  {
    OffsetInBounds(width, height, x, y);
    FlipIsInvolution(height, y);
    var i := ByteOffset(width, x, y);
    ChannelsOfPack(0xFF, data[i], data[i + 1], data[i + 2]);
  }

  /** Two read-back buffers that differ only in their alpha bytes give the
      same screenshot. */
  lemma AlphaBytesIgnored(data: seq<bv8>, other: seq<bv8>, width: nat, height: nat, x: nat, row: nat)
    requires |data| == |other| == width * height * 4 && x < width && row < height
    requires forall i :: 0 <= i < |data| && i % 4 != 3 ==> data[i] == other[i]
    ensures ImagePixel(data, width, height, x, row) == ImagePixel(other, width, height, x, row)
  {
    var y := FlippedRow(height, row);
    OffsetInBounds(width, height, x, y);
    var i := ByteOffset(width, x, y);
    assert i % 4 == 0 && (i + 1) % 4 == 1 && (i + 2) % 4 == 2;
  }

  /** The conversion loop: column by column, each source pixel lands on the
      flipped row, so every pixel of the width x height image is written once.
      BufferedImage refuses sizes that are not positive. */
  method RenderScreenshot(data: seq<bv8>, width: nat, height: nat) returns (image: array2<bv32>)
    requires width > 0 && height > 0
    requires |data| == width * height * 4
    ensures fresh(image) && image.Length0 == width && image.Length1 == height
    ensures forall x, row :: 0 <= x < width && 0 <= row < height ==>
      image[x, row] == ImagePixel(data, width, height, x, row)
  {
    image := new bv32[width, height];
    var x := 0;
    while x < width
      invariant 0 <= x <= width
      invariant forall i, j :: 0 <= i < x && 0 <= j < height ==>
        image[i, j] == ImagePixel(data, width, height, i, j)
    {
      var y := 0;
      while y < height
        invariant 0 <= y <= height
        invariant forall i, j :: 0 <= i < x && 0 <= j < height ==>
          image[i, j] == ImagePixel(data, width, height, i, j)
        invariant forall j :: height - y <= j < height ==>
          image[x, j] == ImagePixel(data, width, height, x, j)
      {
        OffsetInBounds(width, height, x, y);
        var index := (x + width * y) * 4;
        var r := data[index];
        var g := data[index + 1];
        var b := data[index + 2];
        FlipIsInvolution(height, y);
        image[x, height - (y + 1)] := Pack(0xFF, r, g, b);
        y := y + 1;
      }
      x := x + 1;
    }
  }

  /** A screenshot: the image rendered from the front buffer when it is taken. */
  class Screenshot {
    var screenshot: array2<bv32>

    /** Takes the screenshot of a window-sized front buffer, as glReadPixels
        fills it. */
    constructor (frontBuffer: seq<bv8>)
      requires |frontBuffer| == WindowWidth * WindowHeight * 4
      ensures fresh(screenshot)
      ensures screenshot.Length0 == WindowWidth && screenshot.Length1 == WindowHeight
      ensures forall x, row :: 0 <= x < WindowWidth && 0 <= row < WindowHeight ==>
        screenshot[x, row] == ImagePixel(frontBuffer, WindowWidth, WindowHeight, x, row)
    {
      var image := RenderScreenshot(frontBuffer, WindowWidth, WindowHeight);
      screenshot := image;
    }
  }
}
