/** The three bitmap formats, pixel by pixel, and what a copied picture looks like. */
module BitmapFormats {
  import opened Common
  import opened Framebuffer
  import opened Spans

  const BITMAP_1BPP: bv8 := 0
  const BITMAP_2BPP: bv8 := 1
  const BITMAP_4BPP: bv8 := 2

  const HEADER_SIZE := 5
  const VFDSHADE_BRIGHT: Shade := 3

  // A negative shade argument keeps the bitmap's own shades.
  datatype Tint = OwnShades | Fixed(shade: Shade)

  // What one bitmap pixel does to the display.
  datatype Ink = Clear | Ink(shade: Shade)

  // Pixel k of eight, the highest bit being the leftmost.
  predicate LeftBit(byte: bv8, k: int)
    requires 0 <= k < 8
  {
    (byte >> (7 - k)) & 1 == 1
  }

  // Pixel k of four, the lowest pair being the leftmost.
  function LowPair(byte: bv8, k: int): (shade: bv8)
    requires 0 <= k < 4
    ensures shade < 4
  {
    (byte >> (2 * k)) & 0x03
  }

  // A bitmap with the arguments that say how to show it.
  datatype Picture = Picture(bytes: seq<bv8>, tint: Tint, transparent: bool) {

    predicate HasHeader() { |bytes| >= HEADER_SIZE }

    function Width(): nat
      requires HasHeader()
    {
      bytes[2] as nat + 256 * bytes[1] as nat
    }

    function Height(): nat
      requires HasHeader()
    {
      bytes[4] as nat + 256 * bytes[3] as nat
    }

    function PixelsPerByte(): nat
      requires HasHeader()
    {
      if bytes[0] == BITMAP_1BPP then 8 else if bytes[0] == BITMAP_2BPP then 4 else 2
    }

    // Every scanline starts on a new byte.
    function RowBytes(): int
      requires HasHeader()
    {
      (Width() - 1) / PixelsPerByte() + 1
    }

    function ByteAt(sx: int, sy: int): int
      requires HasHeader()
    {
      HEADER_SIZE + sy * RowBytes() + sx / PixelsPerByte()
    }

    predicate KnownFormat()
      requires HasHeader()
    {
      bytes[0] in {BITMAP_1BPP, BITMAP_2BPP, BITMAP_4BPP}
    }

    /** The bytes cover every pixel. The two-bit routine also looks at the byte
        after the last pixel of a row, so it needs one byte more. */
    predicate LongEnough()
      requires HasHeader()
    {
      |bytes| >= HEADER_SIZE + Height() * RowBytes() + (if bytes[0] == BITMAP_2BPP then 1 else 0)
    }

    predicate Complete() { HasHeader() && KnownFormat() && LongEnough() }

    predicate Has(sx: int, sy: int) {
      Complete() && 0 <= sx < Width() && 0 <= sy < Height()
    }

    /** The routines compute an address for any column and row, of the bitmap or not, and read it. */
    predicate Reads(sx: int, sy: int) {
      && HasHeader() && KnownFormat()
      && 0 <= ByteAt(sx, sy) < |bytes|
      && (bytes[0] == BITMAP_2BPP ==> ByteAt(sx + 1, sy) < |bytes|)
    }

    // The pixel's own shade; a one-bit pixel is either set or not.
    function OwnShade(sx: int, sy: int): Shade
      requires Reads(sx, sy)
    {
      var byte := bytes[ByteAt(sx, sy)];
      if bytes[0] == BITMAP_1BPP then if LeftBit(byte, sx % 8) then VFDSHADE_BRIGHT else 0
      else if bytes[0] == BITMAP_2BPP then LowPair(byte, sx % 4)
      else (if sx % 2 == 0 then byte else byte >> 4) & 0x03
    }

    // The extra transparency information of a four-bit pixel.
    predicate MarkedTransparent(sx: int, sy: int)
      requires Reads(sx, sy)
    {
      var byte := bytes[ByteAt(sx, sy)];
      (if sx % 2 == 0 then byte & MASK_LO_NYBBLE else byte >> 4) & 0x0C != 0
    }

    /** What the pixel in column sx of row sy shows. */
    function InkAt(sx: int, sy: int): Ink {
      if !Reads(sx, sy) then Clear
      else
        var own := OwnShade(sx, sy);
        var shown := if tint.Fixed? then tint.shade else own;
        if bytes[0] == BITMAP_4BPP then
          if !transparent then Ink(own) else if MarkedTransparent(sx, sy) then Clear else Ink(shown)
        else if own == 0 && transparent then Clear
        else if own == 0 && bytes[0] == BITMAP_1BPP then Ink(0)
        else Ink(shown)
    }

    /** The pixels an asked shade does not reach: of an opaque bitmap, the four-bit ones and the unset one-bit ones. */
    predicate KeepsOwnShade(sx: int, sy: int)
      requires Reads(sx, sy)
    {
      !transparent && (bytes[0] == BITMAP_4BPP || (bytes[0] == BITMAP_1BPP && OwnShade(sx, sy) == 0))
    }
  }

  // ---- The formats in numbers ----

  /** The header: the format, then width and height, each in two bytes with the high one first. */
  lemma HeaderInNumbers(pic: Picture)
    requires pic.HasHeader()
    ensures pic.Width() == 256 * pic.bytes[1] as int + pic.bytes[2] as int
    ensures pic.Height() == 256 * pic.bytes[3] as int + pic.bytes[4] as int
  {
  }

  /** What is plotted for a pixel of shade `own`, and with which shade; `never` means that it is not plotted. */
  ghost predicate Shows(pic: Picture, ink: Ink, own: Shade, never: bool, tinted: bool) {
    if never then ink == Clear
    else ink == Ink(if tinted && pic.tint.Fixed? then pic.tint.shade else own)
  }

  /** One bit a pixel, the highest of a byte leftmost: 1 is bright, or the asked shade; 0 is clear, or black. */
  lemma OneBitInNumbers(pic: Picture, sx: int, sy: int)
    requires pic.HasHeader() && pic.bytes[0] == 0 && pic.Reads(sx, sy)
    ensures var at, k := 5 + sy * ((pic.Width() + 7) / 8) + sx / 8, sx % 8;
            && 0 <= at < |pic.bytes|
            && var mask: bv8 := if k == 0 then 0x80 else if k == 1 then 0x40 else if k == 2 then 0x20
                                else if k == 3 then 0x10 else if k == 4 then 0x08 else if k == 5 then 0x04
                                else if k == 6 then 0x02 else 0x01;
               if pic.bytes[at] & mask != 0 then Shows(pic, pic.InkAt(sx, sy), 3, false, true)
               else Shows(pic, pic.InkAt(sx, sy), 0, pic.transparent, false)
  {
    hide Picture.Width;
    assert (pic.Width() - 1) / 8 + 1 == (pic.Width() + 7) / 8;
    BitsByPlace(pic.bytes[pic.ByteAt(sx, sy)], sx % 8);
    hide LeftBit;
  }

  lemma BitsByPlace(byte: bv8, k: int)
    requires 0 <= k < 8
    ensures LeftBit(byte, k)
            <==> byte & (if k == 0 then 0x80 else if k == 1 then 0x40 else if k == 2 then 0x20
                         else if k == 3 then 0x10 else if k == 4 then 0x08 else if k == 5 then 0x04
                         else if k == 6 then 0x02 else 0x01) != 0
  {
    if k == 0 {} else if k == 1 {} else if k == 2 {} else if k == 3 {}
    else if k == 4 {} else if k == 5 {} else if k == 6 {} else {}
  }

  /** Two bits a pixel, the lowest pair of a byte leftmost: the shade itself; transparent, shade 0 is clear. */
  lemma TwoBitInNumbers(pic: Picture, sx: int, sy: int)
    requires pic.HasHeader() && pic.bytes[0] == 1 && pic.Reads(sx, sy)
    ensures var at, k := 5 + sy * ((pic.Width() + 3) / 4) + sx / 4, sx % 4;
            && 0 <= at < |pic.bytes|
            && var byte := pic.bytes[at];
               var own: bv8 := if k == 0 then byte & 0x03 else if k == 1 then (byte & 0x0C) >> 2
                               else if k == 2 then (byte & 0x30) >> 4 else (byte & 0xC0) >> 6;
               own < 4 && Shows(pic, pic.InkAt(sx, sy), own, own == 0 && pic.transparent, true)
  {
    hide Picture.Width;
    assert (pic.Width() - 1) / 4 + 1 == (pic.Width() + 3) / 4;
    PairsByPlace(pic.bytes[pic.ByteAt(sx, sy)], sx % 4);
    hide LowPair;
  }

  lemma PairsByPlace(byte: bv8, k: int)
    requires 0 <= k < 4
    ensures LowPair(byte, k)
            == if k == 0 then byte & 0x03 else if k == 1 then (byte & 0x0C) >> 2
               else if k == 2 then (byte & 0x30) >> 4 else (byte & 0xC0) >> 6
  {
    if k == 0 {} else if k == 1 {} else if k == 2 {} else {}
  }

  /** Four bits a pixel, the low nybble leftmost: two for the shade and two that, transparent, make it clear. */
  lemma FourBitInNumbers(pic: Picture, sx: int, sy: int)
    requires pic.HasHeader() && pic.bytes[0] == 2 && pic.Reads(sx, sy)
    ensures var at := 5 + sy * ((pic.Width() + 1) / 2) + sx / 2;
            && 0 <= at < |pic.bytes|
            && var byte := pic.bytes[at];
               var own: bv8 := if sx % 2 == 0 then byte & 0x03 else (byte & 0x30) >> 4;
               var marked := if sx % 2 == 0 then byte & 0x0C != 0 else byte & 0xC0 != 0;
               own < 4 && Shows(pic, pic.InkAt(sx, sy), own, pic.transparent && marked, pic.transparent)
  {
    hide Picture.Width;
    assert (pic.Width() - 1) / 2 + 1 == (pic.Width() + 1) / 2;
    NybblesByPlace(pic.bytes[pic.ByteAt(sx, sy)]);
  }

  lemma NybblesByPlace(byte: bv8)
    ensures (byte >> 4) & 0x03 == (byte & 0x30) >> 4 && ((byte >> 4) & 0x0C != 0 <==> byte & 0xC0 != 0)
    ensures (byte & MASK_LO_NYBBLE) & 0x0C == byte & 0x0C && (byte & 0x03) < 4 && (byte & 0x30) >> 4 < 4
  {
  }

  lemma RowFits(row: int, rows: int, n: int, column: int)
    requires 0 <= row < rows && 0 <= column < n
    ensures 0 <= row * n + column < (row + 1) * n <= rows * n
  {
    MulKeepsOrder(n, 0, row);
    MulKeepsOrder(n, row + 1, rows);
    assert (row + 1) * n == row * n + n;
  }

  lemma ByteInBitmap(pic: Picture, sx: int, sy: int)
    requires pic.Has(sx, sy)
    ensures HEADER_SIZE <= pic.ByteAt(sx, sy) < HEADER_SIZE + (sy + 1) * pic.RowBytes()
    ensures pic.Reads(sx, sy)
  {
    var n, k := pic.RowBytes(), pic.PixelsPerByte();
    ColumnInRow(sx, pic.Width(), k);
    RowFits(sy, pic.Height(), n, sx / k);
    NextSource(pic, sx, sy);
    hide Picture.Width, Picture.Height;
  }

  lemma ColumnInRow(sx: int, width: int, k: int)
    requires 0 <= sx < width && 2 <= k
    ensures 0 <= sx / k < (width - 1) / k + 1
  {
    QuotientKeepsOrder(sx, width - 1, k);
  }

  lemma QuotientKeepsOrder(a: int, b: int, k: int)
    requires 0 <= a <= b && 0 < k
    ensures 0 <= a / k <= b / k
  {
    if a / k > b / k {
      MulKeepsOrder(k, b / k + 1, a / k);
      assert false;
    }
  }

  lemma NextSource(pic: Picture, sx: int, sy: int)
    requires pic.HasHeader()
    ensures pic.ByteAt(sx + 1, sy) ==
            pic.ByteAt(sx, sy) + (if sx % pic.PixelsPerByte() == pic.PixelsPerByte() - 1 then 1 else 0)
    ensures pic.ByteAt(sx, sy + 1) == pic.ByteAt(sx, sy) + pic.RowBytes()
  {
    assert (sy + 1) * pic.RowBytes() == sy * pic.RowBytes() + pic.RowBytes();
    hide Picture.RowBytes;
  }

  /** An asked shade is honoured by a plotted pixel exactly when the bitmap's kind lets it through, or the
      pixel has that shade anyway. */
  lemma TintIsHonoured(pic: Picture, shade: Shade, sx: int, sy: int)
    requires pic.tint == Fixed(shade) && pic.InkAt(sx, sy).Ink?
    ensures pic.InkAt(sx, sy).shade == shade <==> !(pic.KeepsOwnShade(sx, sy) && pic.OwnShade(sx, sy) != shade)
  {
    hide Picture.OwnShade, Picture.Reads, Picture.MarkedTransparent;
  }

  /** `after` is `before` with the picture's ink laid over region r, the picture's
      corner at (dx, dy); clear pixels and everything else are untouched. */
  ghost predicate Copied(pic: Picture, before: seq<bv8>, after: seq<bv8>, r: Region, dx: int, dy: int) {
    && |before| == BUFFER_SIZE
    && |after| == BUFFER_SIZE
    && forall x, y {:trigger Pixel(after, x, y)} | OnScreen(x, y) ::
         Pixel(after, x, y) ==
         (var ink := pic.InkAt(x - dx, y - dy);
          if (x, y) in r && ink.Ink? then ink.shade else Pixel(before, x, y))
  }

  lemma CopiedNothing(pic: Picture, b: seq<bv8>, dx: int, dy: int)
    requires |b| == BUFFER_SIZE
    ensures Copied(pic, b, b, iset{}, dx, dy)
  {
  }

  // A bitmap of an unknown format has no ink.
  lemma CopiedUnknown(pic: Picture, b: seq<bv8>, r: Region, dx: int, dy: int)
    requires |b| == BUFFER_SIZE && pic.HasHeader() && !pic.KnownFormat()
    ensures Copied(pic, b, b, r, dx, dy)
  {
  }

  lemma CopiedThenInk(pic: Picture, b0: seq<bv8>, b1: seq<bv8>, b2: seq<bv8>, r: Region,
                      x: int, y: int, dx: int, dy: int, shade: Shade)
    requires Copied(pic, b0, b1, r, dx, dy)
    requires pic.InkAt(x - dx, y - dy) == Ink(shade)
    requires Painted(b1, b2, iset{(x, y)}, shade)
    ensures Copied(pic, b0, b2, r + iset{(x, y)}, dx, dy)
  {
  }

  lemma CopiedThenClear(pic: Picture, b0: seq<bv8>, b1: seq<bv8>, r: Region, x: int, y: int, dx: int, dy: int)
    requires Copied(pic, b0, b1, r, dx, dy)
    requires pic.InkAt(x - dx, y - dy) == Clear
    ensures Copied(pic, b0, b1, r + iset{(x, y)}, dx, dy)
  {
  }

  /**
   Laid over a region of the screen with an asked shade, a picture paints its inked pixels in that shade
   exactly when no pixel of it keeps another.
   */
  lemma CopiedPaints(pic: Picture, b0: seq<bv8>, b1: seq<bv8>, r: Region, dx: int, dy: int, shade: Shade)
    requires Copied(pic, b0, b1, r, dx, dy) && pic.tint == Fixed(shade)
    requires forall x, y | (x, y) in r :: OnScreen(x, y)
    ensures Painted(b0, b1, r * Inked(pic, dx, dy), shade) <==> TintReaches(pic, r, dx, dy, shade)
  {
    hide Picture.Reads, Picture.OwnShade, Pixel;
    forall x, y | (x, y) in r && pic.InkAt(x - dx, y - dy).Ink?
      ensures pic.InkAt(x - dx, y - dy).shade == shade <==>
              !(pic.KeepsOwnShade(x - dx, y - dy) && pic.OwnShade(x - dx, y - dy) != shade)
    {
      TintIsHonoured(pic, shade, x - dx, y - dy);
    }
    hide Picture.InkAt, Picture.KeepsOwnShade;
    var q := r * Inked(pic, dx, dy);
    if Painted(b0, b1, q, shade) {
      forall x, y | (x, y) in q
        ensures !(pic.KeepsOwnShade(x - dx, y - dy) && pic.OwnShade(x - dx, y - dy) != shade)
      {
        assert Pixel(b1, x, y) == shade;
      }
    }
  }

  ghost predicate TintReaches(pic: Picture, r: Region, dx: int, dy: int, shade: Shade) {
    forall x, y | (x, y) in r * Inked(pic, dx, dy) ::
      !(pic.KeepsOwnShade(x - dx, y - dy) && pic.OwnShade(x - dx, y - dy) != shade)
  }

  ghost function Inked(pic: Picture, dx: int, dy: int): Region {
    iset p: (int, int) | pic.InkAt(p.0 - dx, p.1 - dy).Ink?
  }
}
