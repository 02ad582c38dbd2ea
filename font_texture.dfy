/**
 * The text half of the engine: a font atlas built from the glyph sizes the
 * font reports, the measurement of text against the atlas's glyphs, and the
 * packing of the atlas image into the RGBA bytes the texture is made from.
 * The rendering of glyph images and the flip of the atlas image are AWT's
 * business; the flipped image's pixels are an input.
 */
module FontText {
  import opened Wrappers
  import opened JavaText
  import opened Argb

  /** A glyph of the atlas: its character, its size and its place. */
  datatype Glyph = Glyph(character: char, width: nat, height: nat, x: int, y: int)

  function Max(a: int, b: int): (r: int)
    ensures r >= a && r >= b && (r == a || r == b)
  {
    if a >= b then a else b
  }

  // ----- measuring text -----

  /** The lines of a text: the pieces between '\n' characters. */
  function Lines(text: string): (r: seq<string>)
    ensures |r| >= 1
  {
    Fields(text, {'\n'})
  }

  /** A character that takes room on a line: not a carriage return, and
      with a glyph in the atlas. */
  predicate Counted(glyphs: map<char, Glyph>, c: char) {
    c != '\r' && c in glyphs
  }

  /** The width a character adds to its line. */
  function Advance(glyphs: map<char, Glyph>, c: char): nat {
    if Counted(glyphs, c) then glyphs[c].width else 0
  }

  /** The height a character gives its line at the least. */
  function Extent(glyphs: map<char, Glyph>, c: char): nat {
    if Counted(glyphs, c) then glyphs[c].height else 0
  }

  /** The sum of the widths of a line's characters. */
  function LineWidth(glyphs: map<char, Glyph>, line: string): nat {
    if |line| == 0 then 0 else LineWidth(glyphs, line[..|line| - 1]) + Advance(glyphs, line[|line| - 1])
  }

  /** The tallest of a line's characters, 0 for a line without glyphs. */
  function LineHeight(glyphs: map<char, Glyph>, line: string): nat {
    if |line| == 0 then 0 else Max(LineHeight(glyphs, line[..|line| - 1]), Extent(glyphs, line[|line| - 1]))
  }

  /** The widest of the lines, 0 when there are none. */
  function MaxWidth(glyphs: map<char, Glyph>, lines: seq<string>): nat {
    if |lines| == 0 then 0 else Max(MaxWidth(glyphs, lines[..|lines| - 1]), LineWidth(glyphs, lines[|lines| - 1]))
  }

  /** The lines' heights added up. */
  function SumHeights(glyphs: map<char, Glyph>, lines: seq<string>): nat {
    if |lines| == 0 then 0 else SumHeights(glyphs, lines[..|lines| - 1]) + LineHeight(glyphs, lines[|lines| - 1])
  }

  /** What getWidth computes: the width of the widest line. */
  function TextWidth(glyphs: map<char, Glyph>, text: string): nat {
    MaxWidth(glyphs, Lines(text))
  }

  /** What getHeight computes: the heights of the lines, added up. */
  function TextHeight(glyphs: map<char, Glyph>, text: string): nat {
    SumHeights(glyphs, Lines(text))
  }

  /** The width of the text is that of its widest line: no line is wider,
      and some line is exactly that wide. */
  lemma TextWidthIsWidestLine(glyphs: map<char, Glyph>, text: string)
    ensures forall k :: 0 <= k < |Lines(text)| ==> LineWidth(glyphs, Lines(text)[k]) <= TextWidth(glyphs, text)
    ensures exists k :: 0 <= k < |Lines(text)| && LineWidth(glyphs, Lines(text)[k]) == TextWidth(glyphs, text)
  {
    MaxWidthIsWidest(glyphs, Lines(text));
  }

  lemma {:induction false} MaxWidthIsWidest(glyphs: map<char, Glyph>, lines: seq<string>)
    requires |lines| >= 1
    ensures forall k :: 0 <= k < |lines| ==> LineWidth(glyphs, lines[k]) <= MaxWidth(glyphs, lines)
    ensures exists k :: 0 <= k < |lines| && LineWidth(glyphs, lines[k]) == MaxWidth(glyphs, lines)
  {
    var init := lines[..|lines| - 1];
    var last := |lines| - 1;
    if |init| == 0 {
      assert LineWidth(glyphs, lines[0]) == MaxWidth(glyphs, lines);
    } else {
      MaxWidthIsWidest(glyphs, init);
      assert forall k :: 0 <= k < |init| ==> init[k] == lines[k];
      if MaxWidth(glyphs, init) >= LineWidth(glyphs, lines[last]) {
        var k :| 0 <= k < |init| && LineWidth(glyphs, init[k]) == MaxWidth(glyphs, init);
        assert LineWidth(glyphs, lines[k]) == MaxWidth(glyphs, lines);
      } else {
        assert LineWidth(glyphs, lines[last]) == MaxWidth(glyphs, lines);
      }
    }
  }

  /** The height of a line is that of its tallest character: none is taller,
      and unless the line is 0 high, some character is exactly that tall. */
  lemma {:induction false} LineHeightIsTallest(glyphs: map<char, Glyph>, line: string)
    ensures forall i :: 0 <= i < |line| ==> Extent(glyphs, line[i]) <= LineHeight(glyphs, line)
    ensures LineHeight(glyphs, line) == 0 ||
      exists i :: 0 <= i < |line| && Counted(glyphs, line[i]) && glyphs[line[i]].height == LineHeight(glyphs, line)
  {
    if |line| > 0 {
      var init := line[..|line| - 1];
      LineHeightIsTallest(glyphs, init);
      assert forall i :: 0 <= i < |init| ==> init[i] == line[i];
      if LineHeight(glyphs, init) < Extent(glyphs, line[|line| - 1]) {
        assert Counted(glyphs, line[|line| - 1]);
      } else if LineHeight(glyphs, line) != 0 {
        var i :| 0 <= i < |init| && Counted(glyphs, init[i]) && glyphs[init[i]].height == LineHeight(glyphs, init);
        assert line[i] == init[i];
      }
    }
  }

  /** An empty text is 0 wide and 0 high. */
  lemma EmptyTextMeasuresZero(glyphs: map<char, Glyph>)
    ensures TextWidth(glyphs, "") == 0 && TextHeight(glyphs, "") == 0
  {
    assert Lines("") == [""];
    assert [""][..0] == [];
    assert MaxWidth(glyphs, [""]) == Max(MaxWidth(glyphs, []), LineWidth(glyphs, ""));
    assert SumHeights(glyphs, [""]) == SumHeights(glyphs, []) + LineHeight(glyphs, "");
  }

  lemma {:induction false} LineWidthAppend(glyphs: map<char, Glyph>, a: string, b: string)
    ensures LineWidth(glyphs, a + b) == LineWidth(glyphs, a) + LineWidth(glyphs, b)
    decreases |b|
  {
    if |b| == 0 {
      assert a + b == a;
    } else {
      LineWidthAppend(glyphs, a, b[..|b| - 1]);
      assert (a + b)[..|a + b| - 1] == a + b[..|b| - 1];
    }
  }

  lemma {:induction false} LineHeightAppend(glyphs: map<char, Glyph>, a: string, b: string)
    ensures LineHeight(glyphs, a + b) == Max(LineHeight(glyphs, a), LineHeight(glyphs, b))
    decreases |b|
  {
    if |b| == 0 {
      assert a + b == a;
    } else {
      LineHeightAppend(glyphs, a, b[..|b| - 1]);
      assert (a + b)[..|a + b| - 1] == a + b[..|b| - 1];
    }
  }

  lemma {:induction false} MaxWidthAppend(glyphs: map<char, Glyph>, xs: seq<string>, ys: seq<string>)
    ensures MaxWidth(glyphs, xs + ys) == Max(MaxWidth(glyphs, xs), MaxWidth(glyphs, ys))
    decreases |ys|
  {
    if |ys| == 0 {
      assert xs + ys == xs;
    } else {
      MaxWidthAppend(glyphs, xs, ys[..|ys| - 1]);
      assert (xs + ys)[..|xs + ys| - 1] == xs + ys[..|ys| - 1];
    }
  }

  lemma {:induction false} SumHeightsAppend(glyphs: map<char, Glyph>, xs: seq<string>, ys: seq<string>)
    ensures SumHeights(glyphs, xs + ys) == SumHeights(glyphs, xs) + SumHeights(glyphs, ys)
    decreases |ys|
  {
    if |ys| == 0 {
      assert xs + ys == xs;
    } else {
      SumHeightsAppend(glyphs, xs, ys[..|ys| - 1]);
      assert (xs + ys)[..|xs + ys| - 1] == xs + ys[..|ys| - 1];
    }
  }

  /** Two texts on lines of their own: the wider gives the width, and the
      heights add. */
  lemma TextOnSeparateLines(glyphs: map<char, Glyph>, a: string, b: string)
    ensures TextWidth(glyphs, a + "\n" + b) == Max(TextWidth(glyphs, a), TextWidth(glyphs, b))
    ensures TextHeight(glyphs, a + "\n" + b) == TextHeight(glyphs, a) + TextHeight(glyphs, b)
  {
    assert a + "\n" + b == a + ['\n'] + b;
    FieldsAroundSeparator(a, '\n', b, {'\n'});
    MaxWidthAppend(glyphs, Lines(a), Lines(b));
    SumHeightsAppend(glyphs, Lines(a), Lines(b));
  }

  /** A carriage return, or a character without a glyph, changes neither
      the width nor the height of the text it sits in. */
  lemma IgnoredCharacter(glyphs: map<char, Glyph>, a: string, c: char, b: string)
    requires c != '\n' && !Counted(glyphs, c)
    ensures TextWidth(glyphs, a + [c] + b) == TextWidth(glyphs, a + b)
    ensures TextHeight(glyphs, a + [c] + b) == TextHeight(glyphs, a + b)
  {
    var fa, fb := Lines(a), Lines(b);
    var P, Q := fa[..|fa| - 1], fb[1..];
    var l1, l2 := fa[|fa| - 1], fb[0];
    FieldsAroundOther(a, c, b, {'\n'});
    assert Lines(a + [c] + b) == P + [l1 + [c] + l2] + Q;
    assert Lines(a + b) == P + [l1 + l2] + Q;
    LineWidthAppend(glyphs, l1 + [c], l2);
    LineWidthAppend(glyphs, l1, l2);
    LineHeightAppend(glyphs, l1 + [c], l2);
    LineHeightAppend(glyphs, l1, l2);
    assert (l1 + [c])[..|l1|] == l1;
    var with, without := l1 + [c] + l2, l1 + l2;
    assert LineWidth(glyphs, with) == LineWidth(glyphs, without);
    assert LineHeight(glyphs, with) == LineHeight(glyphs, without);
    MaxWidthAppend(glyphs, P + [with], Q);
    MaxWidthAppend(glyphs, P + [without], Q);
    SumHeightsAppend(glyphs, P + [with], Q);
    SumHeightsAppend(glyphs, P + [without], Q);
    assert (P + [with])[..|P|] == P;
    assert (P + [without])[..|P|] == P;
  }

  // ----- the atlas -----

  /** What the font reports for a character: FontMetrics.charWidth, and the
      line height FontMetrics.getHeight. */
  datatype CharSize = CharSize(width: nat, height: nat)

  /** The IllegalArgumentException of new BufferedImage for an empty size. */
  datatype AtlasError = InvalidImageSize(width: int, height: int)

  const FirstPrintable: nat := 32
  const DeleteCode: nat := 127
  const CodeEnd: nat := 256

  /** createCharImage: no image when the font has no glyph (width 0), and
      a failure when the glyph image would have no height. */
  function CharImage(s: CharSize): Result<Option<CharSize>, AtlasError> {
    if s.width == 0 then Ok(None)
    else if s.height == 0 then Err(InvalidImageSize(s.width, 0))
    else Ok(Some(s))
  }

  /** The atlas size the first loop works out. */
  datatype Measure = Measure(width: nat, height: nat)

  /** The first loop over the codes from 32 up to n - 1, 127 skipped: the
      widths added up and the greatest height. */
  function MeasureUpTo(sizes: seq<CharSize>, n: nat): Result<Measure, AtlasError>
    requires n <= |sizes|
  {
    if n <= FirstPrintable then Ok(Measure(0, 0))
    else
      var m :- MeasureUpTo(sizes, n - 1);
      if n - 1 == DeleteCode then Ok(m)
      else
        var image :- CharImage(sizes[n - 1]);
        match image
        case None => Ok(m)
        case Some(s) => Ok(Measure(m.width + s.width, Max(m.height, s.height)))
  }

  /** The glyphs placed so far and the offset of the next one. */
  datatype Placement = Placement(offset: nat, glyphs: map<char, Glyph>)

  /** The placement loop over the codes from start up to n - 1, 127
      skipped: each glyph goes at the current offset, its bottom on the
      atlas's bottom edge, and the offset moves on by its width. */
  function PlaceUpTo(sizes: seq<CharSize>, start: nat, atlasHeight: int, n: nat): Result<Placement, AtlasError>
    requires n <= |sizes| && n <= CodeEnd
  {
    if n <= start then Ok(Placement(0, map[]))
    else
      var p :- PlaceUpTo(sizes, start, atlasHeight, n - 1);
      if n - 1 == DeleteCode then Ok(p)
      else
        var image :- CharImage(sizes[n - 1]);
        match image
        case None => Ok(p)
        case Some(s) =>
          var c := (n - 1) as char;
          Ok(Placement(p.offset + s.width, p.glyphs[c := Glyph(c, s.width, s.height, p.offset, atlasHeight - s.height)]))
  }

  /** The atlas: its size and its glyphs. */
  datatype Layout = Layout(width: nat, height: nat, glyphs: map<char, Glyph>)

  /** createTextureAtlas apart from the pixels, placing from code start:
      measure, make the image (which fails for an empty size), place. */
  function AtlasFrom(sizes: seq<CharSize>, start: nat): Result<Layout, AtlasError>
    requires |sizes| == CodeEnd
  {
    var m :- MeasureUpTo(sizes, CodeEnd);
    if m.width == 0 || m.height == 0 then Err(InvalidImageSize(m.width, m.height))
    else
      var p :- PlaceUpTo(sizes, start, m.height, CodeEnd);
      Ok(Layout(m.width, m.height, p.glyphs))
  }

  /** The atlas as createTextureAtlas lays it out: its placement loop starts
      at code 0, although the measuring loop starts at 32. */
  function Atlas(sizes: seq<CharSize>): Result<Layout, AtlasError>
    requires |sizes| == CodeEnd
  {
    AtlasFrom(sizes, 0)
  }

  /** The atlas with the placement loop over the codes the atlas is
      measured for. */
  function IntendedAtlas(sizes: seq<CharSize>): Result<Layout, AtlasError>
    requires |sizes| == CodeEnd
  {
    AtlasFrom(sizes, FirstPrintable)
  }

  /** A code that gets a glyph: not 127, and a glyph in the font. */
  predicate Placed(sizes: seq<CharSize>, code: nat)
    requires code < |sizes|
  {
    code != DeleteCode && sizes[code].width != 0
  }

  /** The widths of the codes placed from lo up to hi - 1. */
  function WidthSum(sizes: seq<CharSize>, lo: nat, hi: nat): nat
    requires hi <= |sizes|
    decreases hi
  {
    if hi <= lo then 0
    else WidthSum(sizes, lo, hi - 1) + (if Placed(sizes, hi - 1) then sizes[hi - 1].width else 0)
  }

  /** The measuring loop adds up the widths of the codes from 32 on, and the
      height it finds is that of the tallest code it measures: none is
      taller, and unless the height is 0 some code is exactly that tall. */
  lemma {:induction false} MeasureSums(sizes: seq<CharSize>, n: nat)
    requires n <= |sizes| && MeasureUpTo(sizes, n).Ok?
    ensures MeasureUpTo(sizes, n).value.width == WidthSum(sizes, FirstPrintable, n)
    ensures forall j :: FirstPrintable <= j < n && Placed(sizes, j) ==> sizes[j].height <= MeasureUpTo(sizes, n).value.height
    ensures var h := MeasureUpTo(sizes, n).value.height;
      h == 0 || exists j :: FirstPrintable <= j < n && Placed(sizes, j) && sizes[j].height == h
  {
    if n > FirstPrintable {
      MeasureSums(sizes, n - 1);
    }
  }

  /** Where the placement loop puts the glyph of each code: there is one
      exactly for the placed codes from start on, at the offset that adds up
      the widths of the placed codes before it, with its bottom on the
      atlas's bottom edge. */
  lemma {:induction false} PlacementOf(sizes: seq<CharSize>, start: nat, atlasHeight: int, n: nat, code: nat)
    requires n <= |sizes| && n <= CodeEnd && code < n
    requires PlaceUpTo(sizes, start, atlasHeight, n).Ok?
    ensures var p := PlaceUpTo(sizes, start, atlasHeight, n).value;
      p.offset == WidthSum(sizes, start, n) &&
      ((code as char) in p.glyphs <==> start <= code && Placed(sizes, code)) &&
      ((code as char) in p.glyphs ==>
        p.glyphs[code as char] ==
          Glyph(code as char, sizes[code].width, sizes[code].height, WidthSum(sizes, start, code), atlasHeight - sizes[code].height))
  {
    if n > start {
      PlacedCodes(sizes, start, atlasHeight, n - 1);
      if code < n - 1 {
        PlacementOf(sizes, start, atlasHeight, n - 1, code);
      } else if n - 1 > start {
        PlacementOf(sizes, start, atlasHeight, n - 1, 0);
      } else {
        assert PlaceUpTo(sizes, start, atlasHeight, n - 1).value.offset == 0;
      }
    }
  }

  /** Every glyph comes from a code below 256. */
  lemma {:induction false} PlacedCodes(sizes: seq<CharSize>, start: nat, atlasHeight: int, n: nat)
    requires n <= |sizes| && n <= CodeEnd
    requires PlaceUpTo(sizes, start, atlasHeight, n).Ok?
    ensures forall c :: c in PlaceUpTo(sizes, start, atlasHeight, n).value.glyphs ==> (c as int) < n
  {
    if n > start {
      PlacedCodes(sizes, start, atlasHeight, n - 1);
    }
  }

  lemma {:induction false} WidthSumSplit(sizes: seq<CharSize>, lo: nat, mid: nat, hi: nat)
    requires lo <= mid <= hi <= |sizes|
    ensures WidthSum(sizes, lo, hi) == WidthSum(sizes, lo, mid) + WidthSum(sizes, mid, hi)
    decreases hi
  {
    if hi > mid {
      WidthSumSplit(sizes, lo, mid, hi - 1);
    }
  }

  lemma {:induction false} WidthSumOfBlanks(sizes: seq<CharSize>, lo: nat, hi: nat)
    requires hi <= |sizes|
    requires forall j :: lo <= j < hi ==> sizes[j].width == 0
    ensures WidthSum(sizes, lo, hi) == 0
    decreases hi
  {
    if hi > lo {
      WidthSumOfBlanks(sizes, lo, hi - 1);
    }
  }

  /** With the placement loop over the measured codes, every glyph lies
      inside the atlas: after the ones before it, within the atlas's width,
      with its bottom on the atlas's bottom edge and its top inside. */
  lemma IntendedGlyphsFit(sizes: seq<CharSize>, code: nat)
    requires |sizes| == CodeEnd && code < CodeEnd && IntendedAtlas(sizes).Ok?
    ensures var a := IntendedAtlas(sizes).value;
      (code as char) in a.glyphs ==>
        var g := a.glyphs[code as char];
        0 <= g.x && g.x + g.width <= a.width && 0 <= g.y && g.y + g.height == a.height
  {
    var m := MeasureUpTo(sizes, CodeEnd).value;
    MeasureSums(sizes, CodeEnd);
    PlacementOf(sizes, FirstPrintable, m.height, CodeEnd, code);
    var a := IntendedAtlas(sizes).value;
    if (code as char) in a.glyphs {
      WidthSumSplit(sizes, FirstPrintable, code + 1, CodeEnd);
    }
  }

  /** Glyph sizes with a glyph for control code 0 (5 wide) and for 'A' (7
      wide), both 10 high, and none for the other codes. */
  predicate ControlGlyphSizes(sizes: seq<CharSize>) {
    |sizes| == CodeEnd && sizes[0] == CharSize(5, 10) && sizes[65] == CharSize(7, 10) &&
    forall j :: 0 < j < CodeEnd && j != 65 ==> sizes[j].width == 0
  }

  /** As written, a glyph for a control code shifts the printable glyphs to
      the right although the atlas is not made wider for it: with the sizes
      above, the atlas is 7 wide and 'A' is placed at x = 5. */
  lemma ControlGlyphPushesPastAtlas(sizes: seq<CharSize>)
    requires ControlGlyphSizes(sizes)
    ensures Atlas(sizes).Ok? && 'A' in Atlas(sizes).value.glyphs
    ensures var a := Atlas(sizes).value; a.width == 7 && a.glyphs['A'].x == 5 && a.glyphs['A'].x + a.glyphs['A'].width > a.width
  {
    MeasureOk(sizes, CodeEnd);
    MeasureSums(sizes, CodeEnd);
    var m := MeasureUpTo(sizes, CodeEnd).value;
    WidthSumSplit(sizes, FirstPrintable, 66, CodeEnd);
    WidthSumSplit(sizes, FirstPrintable, 65, 66);
    WidthSumOfBlanks(sizes, FirstPrintable, 65);
    WidthSumOfBlanks(sizes, 66, CodeEnd);
    assert m.width == 7;
    MeasureHeightOfA(sizes);
    PlaceOk(sizes, m.height, CodeEnd);
    PlacementOf(sizes, 0, m.height, CodeEnd, 65);
    WidthSumSplit(sizes, 0, 1, 65);
    WidthSumOfBlanks(sizes, 1, 65);
    assert 65 as char == 'A';
  }

  lemma {:induction false} MeasureOk(sizes: seq<CharSize>, n: nat)
    requires ControlGlyphSizes(sizes) && n <= CodeEnd
    ensures MeasureUpTo(sizes, n).Ok?
  {
    if n > FirstPrintable {
      MeasureOk(sizes, n - 1);
    }
  }

  lemma {:induction false} PlaceOk(sizes: seq<CharSize>, atlasHeight: int, n: nat)
    requires ControlGlyphSizes(sizes) && n <= CodeEnd
    ensures PlaceUpTo(sizes, 0, atlasHeight, n).Ok?
  {
    if n > 0 {
      PlaceOk(sizes, atlasHeight, n - 1);
    }
  }

  lemma MeasureHeightOfA(sizes: seq<CharSize>)
    requires ControlGlyphSizes(sizes) && MeasureUpTo(sizes, CodeEnd).Ok?
    ensures MeasureUpTo(sizes, CodeEnd).value.height >= 10
  {
    MeasureSums(sizes, CodeEnd);
    assert Placed(sizes, 65);
  }

  // ----- the loops -----

  /** The measuring loop of createTextureAtlas. */
  method MeasureGlyphs(sizes: seq<CharSize>) returns (r: Result<Measure, AtlasError>)
    requires |sizes| == CodeEnd
    ensures r == MeasureUpTo(sizes, CodeEnd)
  {
    var textureWidth: nat, fontHeight: nat := 0, 0;
    var i := FirstPrintable;
    while i < CodeEnd
      invariant FirstPrintable <= i <= CodeEnd
      invariant MeasureUpTo(sizes, i) == Ok(Measure(textureWidth, fontHeight))
    {
      if i != DeleteCode {
        var image := CharImage(sizes[i]);
        if image.Err? {
          MeasureStaysFailed(sizes, i + 1, CodeEnd);
          return Err(image.error);
        }
        if image.value.Some? {
          textureWidth := textureWidth + image.value.value.width;
          fontHeight := Max(fontHeight, image.value.value.height);
        }
      }
      i := i + 1;
    }
    return Ok(Measure(textureWidth, fontHeight));
  }

  /** The placement loop of createTextureAtlas, from code 0. */
  method PlaceGlyphs(sizes: seq<CharSize>, atlasHeight: int) returns (r: Result<Placement, AtlasError>)
    requires |sizes| == CodeEnd
    ensures r == PlaceUpTo(sizes, 0, atlasHeight, CodeEnd)
  {
    var glyphs: map<char, Glyph> := map[];
    var offset: nat := 0;
    var i := 0;
    while i < CodeEnd
      invariant 0 <= i <= CodeEnd
      invariant PlaceUpTo(sizes, 0, atlasHeight, i) == Ok(Placement(offset, glyphs))
    {
      if i != DeleteCode {
        var character := i as char;
        var image := CharImage(sizes[i]);
        if image.Err? {
          PlaceStaysFailed(sizes, atlasHeight, i + 1, CodeEnd);
          return Err(image.error);
        }
        if image.value.Some? {
          var s := image.value.value;
          var glyph := Glyph(character, s.width, s.height, offset, atlasHeight - s.height);
          offset := offset + s.width;
          glyphs := glyphs[character := glyph];
        }
      }
      i := i + 1;
    }
    return Ok(Placement(offset, glyphs));
  }

  lemma {:induction false} MeasureStaysFailed(sizes: seq<CharSize>, i: nat, n: nat)
    requires i <= n <= |sizes| && MeasureUpTo(sizes, i).Err?
    ensures MeasureUpTo(sizes, n) == MeasureUpTo(sizes, i)
    decreases n
  {
    if n > i {
      MeasureStaysFailed(sizes, i, n - 1);
    }
  }

  lemma {:induction false} PlaceStaysFailed(sizes: seq<CharSize>, atlasHeight: int, i: nat, n: nat)
    requires i <= n <= |sizes| && n <= CodeEnd && PlaceUpTo(sizes, 0, atlasHeight, i).Err?
    ensures PlaceUpTo(sizes, 0, atlasHeight, n) == PlaceUpTo(sizes, 0, atlasHeight, i)
    decreases n
  {
    if n > i {
      PlaceStaysFailed(sizes, atlasHeight, i, n - 1);
    }
  }

  /** How the lines of a text grow by its next character: a '\n' starts a
      new, empty line, any other character extends the last line. */
  lemma LinesStep(text: string, i: nat)
    requires i < |text|
    ensures var ls := Lines(text[..i]); var ls' := Lines(text[..i + 1]);
      if text[i] == '\n'
      then ls'[..|ls'| - 1] == ls && ls'[|ls'| - 1] == ""
      else ls'[..|ls'| - 1] == ls[..|ls| - 1] && ls'[|ls'| - 1] == ls[|ls| - 1] + [text[i]]
  {
    assert text[..i + 1][..i] == text[..i];
    var ls := Lines(text[..i]);
    if text[i] == '\n' {
      assert (ls + [""])[..|ls|] == ls;
    } else {
      var ls' := Lines(text[..i + 1]);
      assert ls' == ls[..|ls| - 1] + [ls[|ls| - 1] + [text[i]]];
    }
  }

  /** A font atlas: its glyphs, its height, and the texture made from it. */
  class FontTexture {
    var glyphs: map<char, Glyph>
    var fontHeight: int
    var textureWidth: int
    var textureHeight: int
    var textureData: seq<bv8>

    constructor (glyphs: map<char, Glyph>, fontHeight: int, textureWidth: int, textureHeight: int, textureData: seq<bv8>)
      ensures this.glyphs == glyphs && this.fontHeight == fontHeight
      ensures this.textureWidth == textureWidth && this.textureHeight == textureHeight
      ensures this.textureData == textureData
    {
      this.glyphs := glyphs;
      this.fontHeight := fontHeight;
      this.textureWidth := textureWidth;
      this.textureHeight := textureHeight;
      this.textureData := textureData;
    }

    /** getWidth: the width of the widest line of text. */
    method GetWidth(text: string) returns (width: nat)
      ensures width == TextWidth(glyphs, text)
    {
      width := 0;
      var lineWidth := 0;
      var i := 0;
      while i < |text|
        invariant 0 <= i <= |text|
        invariant var ls := Lines(text[..i]);
          width == MaxWidth(glyphs, ls[..|ls| - 1]) && lineWidth == LineWidth(glyphs, ls[|ls| - 1])
      {
        var character := text[i];
        LinesStep(text, i);
        if character == '\n' {
          width := Max(width, lineWidth);
          lineWidth := 0;
        } else {
          if character != '\r' && character in glyphs {
            lineWidth := lineWidth + glyphs[character].width;
          }
        }
        i := i + 1;
      }
      assert text[..|text|] == text;
      var ls := Lines(text);
      assert ls[..|ls| - 1] + [ls[|ls| - 1]] == ls;
      width := Max(width, lineWidth);
    }

    /** getHeight: the heights of the lines of text, added up. */
    method GetHeight(text: string) returns (height: nat)
      ensures height == TextHeight(glyphs, text)
    {
      height := 0;
      var lineHeight := 0;
      var i := 0;
      while i < |text|
        invariant 0 <= i <= |text|
        invariant var ls := Lines(text[..i]);
          height == SumHeights(glyphs, ls[..|ls| - 1]) && lineHeight == LineHeight(glyphs, ls[|ls| - 1])
      {
        var character := text[i];
        LinesStep(text, i);
        if character == '\n' {
          height := height + lineHeight;
          lineHeight := 0;
        } else {
          if character != '\r' && character in glyphs {
            lineHeight := Max(lineHeight, glyphs[character].height);
          }
        }
        i := i + 1;
      }
      assert text[..|text|] == text;
      var ls := Lines(text);
      assert ls[..|ls| - 1] + [ls[|ls| - 1]] == ls;
      height := height + lineHeight;
    }
  }

  /** new FontTexture(font, antiAliasing): the atlas laid out from the
      glyph sizes, and the texture made from image, the atlas image's
      pixels after the glyphs are drawn and the image is flipped. */
  method NewFontTexture(sizes: seq<CharSize>, image: seq<bv32>) returns (r: Result<FontTexture, AtlasError>)
    requires |sizes| == CodeEnd
    requires Atlas(sizes).Ok? ==> |image| == Atlas(sizes).value.width * Atlas(sizes).value.height
    ensures match Atlas(sizes)
      case Err(e) => r == Err(e)
      case Ok(a) =>
        r.Ok? && fresh(r.value) && r.value.glyphs == a.glyphs && r.value.fontHeight == a.height &&
        r.value.textureWidth == a.width && r.value.textureHeight == a.height &&
        r.value.textureData == RgbaBytes(image)
  {
    var m :- MeasureGlyphs(sizes);
    if m.width == 0 || m.height == 0 {
      return Err(InvalidImageSize(m.width, m.height));
    }
    var p :- PlaceGlyphs(sizes, m.height);
    var buffer := PackPixels(image, m.width, m.height);
    var font := new FontTexture(p.glyphs, m.height, m.width, m.height, buffer[..]);
    return Ok(font);
  }
}
