/**
 * 32-bit ARGB pixels, as java.awt.image.BufferedImage hands them out
 * (alpha in the top byte, then red, green, blue), and the RGBA byte order
 * OpenGL's GL_RGBA / GL_UNSIGNED_BYTE uploads expect.
 */
module Argb {
  /** (pixel >> 16) & 0xFF: the shift is arithmetic in Java, but the mask
      keeps only bits 16 to 23, so a logical shift gives the same byte. */
  function Red(p: bv32): bv8 {
    ((p >> 16) & 0xFF) as bv8
  }

  function Green(p: bv32): bv8 {
    ((p >> 8) & 0xFF) as bv8
  }

  function Blue(p: bv32): bv8 {
    (p & 0xFF) as bv8
  }

  function Alpha(p: bv32): bv8 {
    ((p >> 24) & 0xFF) as bv8
  }

  /** The four bytes put into the buffer for one pixel: red, green, blue, alpha. */
  function RgbaOf(p: bv32): (r: seq<bv8>)
    ensures |r| == 4
  {
    [Red(p), Green(p), Blue(p), Alpha(p)]
  }

  /** (a << 24) | (r << 16) | (g << 8) | b on bytes already masked to 0..255. */
  function Pack(a: bv8, r: bv8, g: bv8, b: bv8): bv32 {
    ((a as bv32) << 24) | ((r as bv32) << 16) | ((g as bv32) << 8) | (b as bv32)
  }

  /** Unpacking a packed pixel gives its channels back. */
  lemma ChannelsOfPack(a: bv8, r: bv8, g: bv8, b: bv8)
    ensures Alpha(Pack(a, r, g, b)) == a && Red(Pack(a, r, g, b)) == r
    ensures Green(Pack(a, r, g, b)) == g && Blue(Pack(a, r, g, b)) == b
  {
  }

  /** Packing a pixel's channels gives the pixel back. */
  lemma PackOfChannels(p: bv32)
    ensures Pack(Alpha(p), Red(p), Green(p), Blue(p)) == p
  {
  }

  /** The bytes of every pixel in turn: what the packing loops emit for a
      row-major pixel array. */
  function RgbaBytes(ps: seq<bv32>): (r: seq<bv8>)
    ensures |r| == 4 * |ps|
  {
    if |ps| == 0 then [] else RgbaBytes(ps[..|ps| - 1]) + RgbaOf(ps[|ps| - 1])
  }

  /** Byte k of pixel i sits at offset 4 * i + k. */
  lemma {:induction false} RgbaBytesAt(ps: seq<bv32>, i: nat, k: nat)
    requires i < |ps| && k < 4
    ensures RgbaBytes(ps)[4 * i + k] == RgbaOf(ps[i])[k]
  {
    var init := ps[..|ps| - 1];
    if i < |ps| - 1 {
      RgbaBytesAt(init, i, k);
      assert init[i] == ps[i];
    }
  }

  /** The bytes of a pixel array followed by one more pixel. */
  lemma RgbaBytesSnoc(ps: seq<bv32>, p: bv32)
    ensures RgbaBytes(ps + [p]) == RgbaBytes(ps) + RgbaOf(p)
  {
    assert (ps + [p])[..|ps|] == ps;
  }

  // ----- the row-major packing loop -----

  /** Four puts into the buffer: the RGBA bytes of one pixel at position. */
  method PutPixel(buffer: array<bv8>, position: nat, pixel: bv32)
    requires position + 4 <= buffer.Length
    modifies buffer
    ensures buffer[..position + 4] == old(buffer[..position]) + RgbaOf(pixel)
  {
    buffer[position] := Red(pixel);
    buffer[position + 1] := Green(pixel);
    buffer[position + 2] := Blue(pixel);
    buffer[position + 3] := Alpha(pixel);
    assert buffer[..position + 4] == old(buffer[..position]) + RgbaOf(pixel);
  }

  /** The packing loop: the RGBA bytes of every pixel, row by row, into a
      buffer of width * height * 4 bytes. */
  method PackPixels(pixels: seq<bv32>, width: nat, height: nat) returns (buffer: array<bv8>)
    requires |pixels| == width * height
    ensures fresh(buffer)
    ensures buffer[..] == RgbaBytes(pixels)
  {
    buffer := new bv8[width * height * 4];
    var y := 0;
    while y < height
      invariant 0 <= y <= height
      invariant y * width <= width * height
      invariant buffer[..4 * (y * width)] == RgbaBytes(pixels[..y * width])
    {
      RowEnd(y, width, height);
      PackRow(pixels, width, y * width, buffer);
      y := y + 1;
    }
    assert pixels[..height * width] == pixels;
  }

  lemma RowEnd(y: nat, width: nat, height: nat)
    requires y < height
    ensures y * width + width == (y + 1) * width <= width * height
  {
  }

  /** The inner loop: the pixels of the row starting at pixel rowStart. */
  method PackRow(pixels: seq<bv32>, width: nat, rowStart: nat, buffer: array<bv8>)
    requires rowStart + width <= |pixels| && 4 * |pixels| == buffer.Length
    requires buffer[..4 * rowStart] == RgbaBytes(pixels[..rowStart])
    modifies buffer
    ensures buffer[..4 * (rowStart + width)] == RgbaBytes(pixels[..rowStart + width])
  {
    var x := 0;
    while x < width
      invariant 0 <= x <= width
      invariant buffer[..4 * (rowStart + x)] == RgbaBytes(pixels[..rowStart + x])
    {
      var i := rowStart + x;
      var pixel := pixels[i];
      PutPixel(buffer, 4 * i, pixel);
      assert pixels[..i + 1] == pixels[..i] + [pixel];
      RgbaBytesSnoc(pixels[..i], pixel);
      x := x + 1;
    }
  }
}
