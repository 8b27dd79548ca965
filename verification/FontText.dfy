/** Text drawn glyph by glyph from a font bitmap. */
module FontText {
  import opened Framebuffer
  import opened Spans
  import opened BitmapFormats
  import opened Bitmaps

  // The columns of the font bitmap that hold one character; width 0 means no glyph.
  datatype FontInfo = FontInfo(offset: int, width: int)

  // A built-in font: one glyph for each of '!' to '~', side by side in one bitmap.
  datatype Font = Font(info: seq<FontInfo>, bitmap: seq<bv8>) {

    function Shown(shade: Shade): Picture { Picture(bitmap, Fixed(shade), true) }

    predicate Valid() {
      && |info| == 94
      && var pic := Shown(0);
      && pic.Complete()
      && forall i :: 0 <= i < |info| ==>
           0 <= info[i].offset && 0 <= info[i].width && info[i].offset + info[i].width <= pic.Width()
    }

    function Height(): nat
      requires Valid()
    {
      Shown(0).Height()
    }
  }

  predicate Printable(c: char) { '!' <= c <= '~' }

  function Glyph(font: Font, c: char): FontInfo
    requires font.Valid() && Printable(c)
  {
    font.info[c as int - '!' as int]
  }

  // How far a character moves the pen: its glyph and a one-pixel gap.
  function Advance(font: Font, c: char): (n: nat)
    requires font.Valid()
    ensures n >= 1
  {
    if Printable(c) then Glyph(font, c).width + 1 else 1
  }

  function TextWidth(font: Font, text: string): nat
    requires font.Valid()
  {
    if text == [] then 0 else Advance(font, text[0]) + TextWidth(font, text[1..])
  }

  // The pixels a character's glyph inks when the pen is at (x, y).
  ghost function GlyphPixels(font: Font, c: char, x: int, y: int, shade: Shade): Region
    requires font.Valid()
  {
    if Printable(c) then
      var g := Glyph(font, c);
      Block(x, y, g.width, font.Height()) * Inked(font.Shown(shade), x - g.offset, y)
    else iset{}
  }

  // The pixels of the whole text, on a display without edges.
  ghost function TextPixels(font: Font, text: string, x: int, y: int, shade: Shade): Region
    requires font.Valid()
  {
    if text == [] then iset{}
    else GlyphPixels(font, text[0], x, y, shade)
         + TextPixels(font, text[1..], x + Advance(font, text[0]), y, shade)
  }

  /** All of a text's pixels lie in the box its measured width and height give,
      and the last column of that box stays empty. */
  lemma {:induction false} TextInBox(font: Font, text: string, x: int, y: int, shade: Shade)
    requires font.Valid()
    ensures forall p :: p in TextPixels(font, text, x, y, shade) ==>
              x <= p.0 < x + TextWidth(font, text) - 1 && y <= p.1 < y + font.Height()
    decreases text
  {
    if text != [] {
      TextInBox(font, text[1..], x + Advance(font, text[0]), y, shade);
    }
  }

  /**
   Glyph by glyph: the table's entry `i` belongs to the character `i` after '!'. Its columns of the font appear
   from the pen on, and the pen moves one column further than they are wide; any other character moves it by one.
   */
  lemma {:induction false} OneCharacterShows(font: Font, i: nat, x: int, y: int, shade: Shade)
    requires font.Valid() && i < 94
    ensures var text, g := ['!' + i as char], font.info[i];
            && TextWidth(font, text) == g.width + 1
            && forall p: (int, int) :: p in TextPixels(font, text, x, y, shade) <==>
                 && x <= p.0 < x + g.width && y <= p.1 < y + font.Height()
                 && font.Shown(shade).InkAt(p.0 - x + g.offset, p.1 - y).Ink?
  {
    hide Picture.InkAt;
    var text := ['!' + i as char];
    assert text[1..] == [];
    assert Glyph(font, text[0]) == font.info[i];
    EmptyText(font, x + Advance(font, text[0]), y, shade);
    forall p: (int, int) ensures p.0 - (x - font.info[i].offset) == p.0 - x + font.info[i].offset {}
  }

  lemma {:induction false} OtherCharacterShowsNothing(font: Font, c: char, x: int, y: int, shade: Shade)
    requires font.Valid() && (c < '!' || c > '~')
    ensures TextWidth(font, [c]) == 1 && TextPixels(font, [c], x, y, shade) == iset{}
  {
    hide Font.Valid, Picture.InkAt;
    assert [c][1..] == [];
    EmptyText(font, x + Advance(font, c), y, shade);
  }

  lemma {:induction false} EmptyText(font: Font, x: int, y: int, shade: Shade)
    requires font.Valid()
    ensures TextWidth(font, []) == 0 && TextPixels(font, [], x, y, shade) == iset{}
  {
  }

  /** The second part of a text begins where the first, by its width, ends. */
  lemma {:induction false} TextsFollow(font: Font, first: string, second: string, x: int, y: int, shade: Shade)
    requires font.Valid()
    ensures TextWidth(font, first + second) == TextWidth(font, first) + TextWidth(font, second)
    ensures TextPixels(font, first + second, x, y, shade)
            == TextPixels(font, first, x, y, shade) + TextPixels(font, second, x + TextWidth(font, first), y, shade)
    decreases |first|
  {
    hide Font.Valid, GlyphPixels, Advance;
    if first == [] {
      assert first + second == second;
      EmptyText(font, x, y, shade);
    } else {
      assert (first + second)[1..] == first[1..] + second && (first + second)[0] == first[0];
      TextsFollow(font, first[1..], second, x + Advance(font, first[0]), y, shade);
    }
  }

  method GetTextWidth(font: Font, text: string) returns (width: nat)
    requires font.Valid()
    ensures width == TextWidth(font, text)
  {
    width := 0;
    var i := 0;
    while i < |text|
      invariant 0 <= i <= |text|
      invariant width + TextWidth(font, text[i..]) == TextWidth(font, text)
    {
      assert text[i..][0] == text[i] && text[i..][1..] == text[i + 1..];
      if Printable(text[i]) {
        width := width + Glyph(font, text[i]).width + 1;
      } else {
        width := width + 1;
      }
      i := i + 1;
    }
  }

  lemma NoGlyph(font: Font, c: char, x: int, y: int, shade: Shade)
    requires font.Valid()
    ensures !Printable(c) || Glyph(font, c).width <= 0 ==> GlyphPixels(font, c, x, y, shade) == iset{}
  {
  }

  lemma GlyphCut(font: Font, c: char, x: int, y: int, shade: Shade, clip: Region)
    requires font.Valid() && Printable(c)
    ensures (Block(x, y, Glyph(font, c).width, font.Height()) * clip)
            * Inked(font.Shown(shade), x - Glyph(font, c).offset, y)
            == GlyphPixels(font, c, x, y, shade) * clip
  {
    hide Inked, Block;
  }

  lemma GlyphInRange(font: Font, c: char, shade: Shade)
    requires font.Valid() && Printable(c) && Glyph(font, c).width > 0
    ensures var g := Glyph(font, c);
            InRange(font.Shown(shade), g.offset, 0, g.width, -1)
    ensures var pic := font.Shown(shade);
            pic.HasHeader() && Asked(-1, pic.Height()) == font.Height()
            && Asked(Glyph(font, c).width, pic.Width()) == Glyph(font, c).width
  {
    assert font.Shown(shade).Width() == font.Shown(0).Width();
  }

  // A transparent font takes every shade.
  lemma ShadeReaches(font: Font, r: Region, dx: int, dy: int, shade: Shade)
    ensures TintReaches(font.Shown(shade), r, dx, dy, shade)
  {
    hide Picture.InkAt, Picture.Reads;
  }

  method DrawGlyph(buffer: array<bv8>, clip: Rect, font: Font, c: char, x: int, y: int, shade: Shade)
    requires buffer.Length == BUFFER_SIZE && clip.WithinScreen()
    requires font.Valid() && Printable(c) && Glyph(font, c).width > 0
    modifies buffer
    ensures Painted(old(buffer[..]), buffer[..], GlyphPixels(font, c, x, y, shade) * clip.Pixels(), shade)
  {
    var g, pic := Glyph(font, c), font.Shown(shade);
    ghost var before, area := buffer[..], Block(x, y, g.width, font.Height()) * clip.Pixels();
    GlyphInRange(font, c, shade);
    GlyphCut(font, c, x, y, shade, clip.Pixels());
    InRangeFits(clip, pic, x, y, g.offset, 0, g.width, -1);
    ShadeReaches(font, area, x - g.offset, y, shade);
    assert forall x, y | (x, y) in area :: OnScreen(x, y);
    hide InRange, Asked, Glyph, GlyphPixels, Inked, Block, Painted, Copied, TintReaches, DrawnArea, OnScreen;
    hide Rect.Pixels, Rect.WithinScreen, Rect.Contains, Font.Valid;
    hide Picture.Width, Picture.Height, Picture.Reads, Picture.KnownFormat, Picture.HasHeader;
    DrawBitmap(buffer, clip, pic, x, y, g.offset, 0, g.width, -1);
    CopiedPaints(pic, before, buffer[..], area, x - g.offset, y, shade);
  }

  lemma PaintedMore(b0: seq<bv8>, b1: seq<bv8>, b2: seq<bv8>, r: Region, more: Region, clip: Region, shade: Shade)
    requires Painted(b0, b1, r * clip, shade) && Painted(b1, b2, more * clip, shade)
    ensures Painted(b0, b2, (r + more) * clip, shade)
  {
    assert r * clip + more * clip == (r + more) * clip;
    PaintedThen(b0, b1, b2, r * clip, more * clip, shade);
    hide Painted;
  }

  // The pixels of the first i characters are `done`; the pen stands at x for the rest.
  ghost predicate Begun(font: Font, text: string, i: int, x: int, y: int, shade: Shade, done: Region, whole: Region)
    requires font.Valid()
  {
    0 <= i <= |text| && done + TextPixels(font, text[i..], x, y, shade) == whole
  }

  lemma OneCharacter(font: Font, text: string, i: int, x: int, y: int, shade: Shade, done: Region, whole: Region)
    requires font.Valid() && i < |text| && Begun(font, text, i, x, y, shade, done, whole)
    ensures Begun(font, text, i + 1, x + Advance(font, text[i]), y, shade,
                  done + GlyphPixels(font, text[i], x, y, shade), whole)
  {
    assert text[i..][0] == text[i] && text[i..][1..] == text[i + 1..];
    hide GlyphPixels, Advance, Font.Valid;
  }

  // Whatever is left of the text once the pen has passed the clip's right edge lies outside the clip.
  lemma RestIsOutside(font: Font, text: string, i: int, x: int, y: int, shade: Shade,
                      done: Region, whole: Region, clip: Rect)
    requires font.Valid() && Begun(font, text, i, x, y, shade, done, whole) && (i == |text| || x >= clip.xRight)
    ensures done * clip.Pixels() == whole * clip.Pixels()
  {
    var rest := TextPixels(font, text[i..], x, y, shade);
    TextInBox(font, text[i..], x, y, shade);
    assert i == |text| ==> rest == iset{};
    hide TextPixels, Font.Valid;
    assert rest * clip.Pixels() == iset{};
  }

  /** Drawing stops at the clip's right edge, and still every pixel of the whole
      text that lies in the clip is painted, and nothing else. */
  method DrawText(buffer: array<bv8>, clip: Rect, font: Font, text: string, xLeft: int, yTop: int, shade: Shade)
    requires buffer.Length == BUFFER_SIZE && clip.WithinScreen() && font.Valid()
    modifies buffer
    ensures Painted(old(buffer[..]), buffer[..], TextPixels(font, text, xLeft, yTop, shade) * clip.Pixels(), shade)
  {
    ghost var start := buffer[..];
    ghost var whole := TextPixels(font, text, xLeft, yTop, shade);
    ghost var done: Region := iset{};
    var x, i := xLeft, 0;
    PaintedNothing(start, shade);
    assert done * clip.Pixels() == iset{};
    assert text[0..] == text && done + whole == whole;
    hide Painted, Glyph, GlyphPixels, TextPixels, Font.Valid, Rect.Pixels;
    while i < |text| && x < clip.xRight
      invariant Begun(font, text, i, x, yTop, shade, done, whole)
      invariant Painted(start, buffer[..], done * clip.Pixels(), shade)
    {
      OneCharacter(font, text, i, x, yTop, shade, done, whole);
      hide Begun;
      ghost var here, glyph := buffer[..], GlyphPixels(font, text[i], x, yTop, shade);
      NoGlyph(font, text[i], x, yTop, shade);
      if Printable(text[i]) {
        var g := Glyph(font, text[i]);
        if g.width > 0 {
          DrawGlyph(buffer, clip, font, text[i], x, yTop, shade);
          PaintedMore(start, here, buffer[..], done, glyph, clip.Pixels(), shade);
        }
        x := x + g.width + 1;
      } else {
        x := x + 1;
      }
      done := done + glyph;
      i := i + 1;
    }
    RestIsOutside(font, text, i, x, yTop, shade, done, whole, clip);
  }
}
