/** Copying bitmaps of the three formats into the packed buffer. */
module Bitmaps {
  import opened Common
  import opened Framebuffer
  import opened Spans
  import opened BitmapFormats

  // The pixels passed so far by a row-by-row walk over a rectangle.
  ghost function Walked(x0: int, y0: int, width: int, x: int, y: int): Region {
    iset p: (int, int) | x0 <= p.0 < x0 + width && y0 <= p.1 && (p.1 < y || (p.1 == y && p.0 < x))
  }

  ghost function Block(x0: int, y0: int, width: int, height: int): Region {
    iset p: (int, int) | x0 <= p.0 < x0 + width && y0 <= p.1 < y0 + height
  }

  lemma WalkOn(x0: int, y0: int, width: int, x: int, y: int)
    requires x0 <= x <= x0 + width && y0 <= y
    ensures x < x0 + width ==> Walked(x0, y0, width, x, y) + iset{(x, y)} == Walked(x0, y0, width, x + 1, y)
    ensures Walked(x0, y0, width, x0 + width, y) == Walked(x0, y0, width, x0, y + 1)
    ensures Walked(x0, y0, width, x0, y0) == iset{}
    ensures Walked(x0, y0, width, x0, y) == Block(x0, y0, width, y - y0)
  {
  }

  /** A blit in progress: the state every format's two loops keep. The walk stands at
      display pixel (x, y), whose nybble is half `pixelPos` of byte p. */
  ghost predicate Blitting(pic: Picture, start: seq<bv8>, now: seq<bv8>, area: Rect,
                           x: int, y: int, dx: int, dy: int) {
    Copied(pic, start, now, Walked(area.xLeft, area.yTop, area.xRight - area.xLeft, x, y), dx, dy)
  }

  // The area to draw is on the screen and the bytes of all its pixels are there.
  ghost predicate Sourced(pic: Picture, area: Rect, dx: int, dy: int) {
    && area.Valid()
    && pic.HasHeader() && pic.KnownFormat()
    && forall x, y | area.Contains(x, y) :: pic.Reads(x - dx, y - dy)
  }

  // One display pixel: keep the other nybble, put in the shade.
  method PutNybble(buffer: array<bv8>, p: int, pixelPos: int, shade: Shade, ghost x: int, ghost y: int,
                   ghost pic: Picture, ghost start: seq<bv8>, ghost area: Rect, ghost dx: int, ghost dy: int)
    requires buffer.Length == BUFFER_SIZE
    requires OnScreen(x, y) && pixelPos == x % 2 && p == BYTES_PER_SCANLINE * y + x / 2
    requires area.xLeft <= x < area.xRight && area.yTop <= y
    requires Blitting(pic, start, buffer[..], area, x, y, dx, dy)
    requires pic.InkAt(x - dx, y - dy) == Ink(shade)
    modifies buffer
    ensures Blitting(pic, start, buffer[..], area, x + 1, y, dx, dy)
  {
    hide Pixel, Painted, Copied, Walked;
    hide Picture.InkAt;
    ghost var before, none: Region := buffer[..], iset{};
    PaintedNothing(before, shade);
    if pixelPos == 0 {
      SetLo(buffer, p, shade, x / 2, y, before, none);
    } else {
      SetHi(buffer, p, shade, x / 2, y, before, none);
    }
    assert none + iset{(x, y)} == iset{(x, y)};
    CopiedThenInk(pic, start, before, buffer[..],
                  Walked(area.xLeft, area.yTop, area.xRight - area.xLeft, x, y), x, y, dx, dy, shade);
    WalkOn(area.xLeft, area.yTop, area.xRight - area.xLeft, x, y);
  }

  lemma SkipClear(pic: Picture, start: seq<bv8>, now: seq<bv8>, area: Rect, x: int, y: int, dx: int, dy: int)
    requires Blitting(pic, start, now, area, x, y, dx, dy)
    requires area.xLeft <= x < area.xRight && area.yTop <= y
    requires pic.InkAt(x - dx, y - dy) == Clear
    ensures Blitting(pic, start, now, area, x + 1, y, dx, dy)
  {
    hide Copied, Walked;
    hide Picture.InkAt;
    CopiedThenClear(pic, start, now, Walked(area.xLeft, area.yTop, area.xRight - area.xLeft, x, y), x, y, dx, dy);
    WalkOn(area.xLeft, area.yTop, area.xRight - area.xLeft, x, y);
  }

  // One display pixel: its ink if there is any.
  method PutInk(buffer: array<bv8>, p: int, pixelPos: int, ink: Ink, ghost x: int, ghost y: int,
                ghost pic: Picture, ghost start: seq<bv8>, ghost area: Rect, ghost dx: int, ghost dy: int)
    requires buffer.Length == BUFFER_SIZE
    requires OnScreen(x, y) && pixelPos == x % 2 && p == BYTES_PER_SCANLINE * y + x / 2
    requires area.xLeft <= x < area.xRight && area.yTop <= y
    requires Blitting(pic, start, buffer[..], area, x, y, dx, dy)
    requires pic.InkAt(x - dx, y - dy) == ink
    modifies buffer
    ensures Blitting(pic, start, buffer[..], area, x + 1, y, dx, dy)
  {
    hide Blitting, Picture.InkAt;
    if ink.Ink? {
      PutNybble(buffer, p, pixelPos, ink.shade, x, y, pic, start, area, dx, dy);
    } else {
      SkipClear(pic, start, buffer[..], area, x, y, dx, dy);
    }
  }

  lemma RowDone(pic: Picture, start: seq<bv8>, now: seq<bv8>, area: Rect, y: int, dx: int, dy: int)
    requires Blitting(pic, start, now, area, area.xRight, y, dx, dy)
    requires area.xLeft <= area.xRight && area.yTop <= y
    ensures Blitting(pic, start, now, area, area.xLeft, y + 1, dx, dy)
    ensures y + 1 == area.yBottom ==> Copied(pic, start, now, area.Pixels(), dx, dy)
  {
    hide Copied;
    hide Picture.InkAt;
    WalkOn(area.xLeft, area.yTop, area.xRight - area.xLeft, area.xLeft, y);
    WalkOn(area.xLeft, area.yTop, area.xRight - area.xLeft, area.xLeft, y + 1);
    assert y + 1 == area.yBottom ==>
             Block(area.xLeft, area.yTop, area.xRight - area.xLeft, y + 1 - area.yTop) == area.Pixels();
  }

  lemma BlitStarts(pic: Picture, start: seq<bv8>, area: Rect, dx: int, dy: int)
    requires |start| == BUFFER_SIZE && area.Valid()
    ensures Blitting(pic, start, start, area, area.xLeft, area.yTop, dx, dy)
  {
    hide Copied, Pixel;
    hide Picture.InkAt;
    WalkOn(area.xLeft, area.yTop, area.xRight - area.xLeft, area.xLeft, area.yTop);
    CopiedNothing(pic, start, dx, dy);
  }

  // Where the walk stands at display pixel (x, y): the display byte and its half,
  // and the bitmap byte of source pixel (x - dx, y - dy).
  predicate Standing(pic: Picture, p: int, pixelPos: int, q: int, x: int, y: int, dx: int, dy: int) {
    && pic.HasHeader()
    && p == BYTES_PER_SCANLINE * y + x / 2
    && pixelPos == x % 2
    && q == pic.ByteAt(x - dx, y - dy)
  }

  // The destX++ and sourceX++ steps keep the walk's place.
  lemma StandOn(pic: Picture, p: int, pixelPos: int, q: int, x: int, y: int, dx: int, dy: int, wraps: bool)
    requires Standing(pic, p, pixelPos, q, x, y, dx, dy)
    requires wraps <==> (x - dx) % pic.PixelsPerByte() == pic.PixelsPerByte() - 1
    ensures Standing(pic, if pixelPos + 1 > 1 then p + 1 else p, if pixelPos + 1 > 1 then 0 else pixelPos + 1,
                     if wraps then q + 1 else q, x + 1, y, dx, dy)
  {
    NextSource(pic, x - dx, y - dy);
    hide Picture.ByteAt;
  }

  // At an area pixel the walk's two bytes can be read.
  lemma StandsInside(pic: Picture, area: Rect, p: int, pixelPos: int, q: int, x: int, y: int, dx: int, dy: int)
    requires Sourced(pic, area, dx, dy) && area.Contains(x, y)
    requires Standing(pic, p, pixelPos, q, x, y, dx, dy)
    ensures OnScreen(x, y) && pixelPos == x % 2 && p == BYTES_PER_SCANLINE * y + x / 2
    ensures pic.Reads(x - dx, y - dy) && q == pic.ByteAt(x - dx, y - dy) && 0 <= q < |pic.bytes|
    ensures pic.bytes[0] == BITMAP_2BPP && (x - dx) % 4 == 3 ==> q + 1 < |pic.bytes|
  {
    NextSource(pic, x - dx, y - dy);
    hide Picture.ByteAt;
  }

  // The mask 0x80 >> k picks the bit that is k places from the top.
  function Mask(k: int): bv8
    requires 0 <= k < 8
  {
    (0x80 as bv8) >> k
  }

  lemma MaskPicksBit(byte: bv8, k: int)
    requires 0 <= k < 8
    ensures byte & Mask(k) != 0 <==> LeftBit(byte, k)
    ensures Mask(k) >> 1 == if k == 7 then 0 else Mask(k + 1)
    ensures Mask(k) != 0
  {
    if k == 0 {} else if k == 1 {} else if k == 2 {} else if k == 3 {}
    else if k == 4 {} else if k == 5 {} else if k == 6 {} else {}
  }

  lemma NextMask(k: int)
    requires 0 <= k < 8
    ensures (if Mask(k) >> 1 == 0 then 0x80 else Mask(k) >> 1) == Mask((k + 1) % 8)
    ensures Mask(k) >> 1 == 0 <==> k == 7
  {
    MaskPicksBit(0, k);
    MaskPicksBit(0, (k + 1) % 8);
  }

  lemma OneBitInk(pic: Picture, q: int, bitmask: bv8, sx: int, sy: int)
    requires pic.Reads(sx, sy) && pic.bytes[0] == BITMAP_1BPP
    requires q == pic.ByteAt(sx, sy) && 0 <= q < |pic.bytes| && bitmask == Mask(sx % 8)
    ensures pic.InkAt(sx, sy) ==
            if pic.bytes[q] & bitmask != 0 then Ink(if pic.tint.Fixed? then pic.tint.shade else VFDSHADE_BRIGHT)
            else if pic.transparent then Clear else Ink(0)
  {
    MaskPicksBit(pic.bytes[q], sx % 8);
    hide Mask, LeftBit;
    hide Picture.ByteAt;
  }

  lemma OneBitStep(pic: Picture, p: int, pixelPos: int, q: int, bitmask: bv8, x: int, y: int, dx: int, dy: int)
    requires Standing(pic, p, pixelPos, q, x, y, dx, dy) && pic.bytes[0] == BITMAP_1BPP
    requires bitmask == Mask((x - dx) % 8)
    ensures Standing(pic, if pixelPos + 1 > 1 then p + 1 else p, if pixelPos + 1 > 1 then 0 else pixelPos + 1,
                     if bitmask >> 1 == 0 then q + 1 else q, x + 1, y, dx, dy)
    ensures (if bitmask >> 1 == 0 then 0x80 else bitmask >> 1) == Mask((x + 1 - dx) % 8)
  {
    NextMask((x - dx) % 8);
    hide Mask;
    StandOn(pic, p, pixelPos, q, x, y, dx, dy, bitmask >> 1 == 0);
    hide Standing;
    assert (x + 1 - dx) % 8 == ((x - dx) % 8 + 1) % 8;
  }

  method Row1BPP(buffer: array<bv8>, pic: Picture, pStart: int, pixelStart: int, qStart: int, maskStart: bv8,
                 width: int, ghost start: seq<bv8>, ghost area: Rect, ghost y: int, ghost dx: int, ghost dy: int)
    requires buffer.Length == BUFFER_SIZE
    requires Sourced(pic, area, dx, dy) && area.yTop <= y < area.yBottom
    requires width == area.xRight - area.xLeft
    requires pic.bytes[0] == BITMAP_1BPP
    requires Standing(pic, pStart, pixelStart, qStart, area.xLeft, y, dx, dy)
    requires maskStart == Mask((area.xLeft - dx) % 8)
    requires Blitting(pic, start, buffer[..], area, area.xLeft, y, dx, dy)
    modifies buffer
    ensures Blitting(pic, start, buffer[..], area, area.xRight, y, dx, dy)
  {
    var p, pixelPos, q, bitmask, left := pStart, pixelStart, qStart, maskStart, width;
    ghost var x := area.xLeft;
    var shade := if pic.tint.Fixed? then pic.tint.shade else VFDSHADE_BRIGHT;
    RowIsInside(pic, area, y, dx, dy);
    hide Blitting, Standing, Mask, Sourced;
    hide Picture.ByteAt, Picture.RowBytes, Picture.InkAt, Picture.Reads, Picture.Width, Picture.Height;
    while left > 0
      invariant 0 <= left && x + left == area.xRight && area.xLeft <= x
      invariant Standing(pic, p, pixelPos, q, x, y, dx, dy)
      invariant bitmask == Mask((x - dx) % 8)
      invariant Blitting(pic, start, buffer[..], area, x, y, dx, dy)
    {
      StandsInside(pic, area, p, pixelPos, q, x, y, dx, dy);
      OneBitStep(pic, p, pixelPos, q, bitmask, x, y, dx, dy);
      OneBitInk(pic, q, bitmask, x - dx, y - dy);
      var ink := if pic.bytes[q] & bitmask != 0 then Ink(shade) else if !pic.transparent then Ink(0) else Clear;
      PutInk(buffer, p, pixelPos, ink, x, y, pic, start, area, dx, dy);
      bitmask := bitmask >> 1;
      if bitmask == 0 {
        bitmask, q := 0x80, q + 1;
      }
      pixelPos := pixelPos + 1;
      if pixelPos > 1 {
        p, pixelPos := p + 1, 0;
      }
      left, x := left - 1, x + 1;
    }
  }

  lemma RowIsInside(pic: Picture, area: Rect, y: int, dx: int, dy: int)
    requires Sourced(pic, area, dx, dy) && area.yTop <= y < area.yBottom
    ensures pic.HasHeader() && 0 <= area.xLeft <= area.xRight
    ensures forall x :: area.xLeft <= x < area.xRight ==> area.Contains(x, y)
  {
  }

  // A byte of four pixels, shifted so that pixel k is lowest.
  function Pairs(byte: bv8, k: int): bv8
    requires 0 <= k < 4
  {
    byte >> (2 * k)
  }

  lemma PairsShift(byte: bv8, k: int)
    requires 0 <= k < 4
    ensures Pairs(byte, 0) == byte
    ensures k < 3 ==> Pairs(byte, k) >> 2 == Pairs(byte, k + 1)
  {
    if k == 0 {} else if k == 1 {} else if k == 2 {} else {}
  }

  // What the lowest pair of a byte shows.
  function PairInk(pic: Picture, current: bv8): Ink {
    var own: Shade := current & 0x03;
    if own != 0 || !pic.transparent then Ink(if pic.tint.Fixed? then pic.tint.shade else own) else Clear
  }

  lemma TwoBitInk(pic: Picture, q: int, shift: int, current: bv8, sx: int, sy: int)
    requires pic.Reads(sx, sy) && pic.bytes[0] == BITMAP_2BPP
    requires q == pic.ByteAt(sx, sy) && AtPair(pic, q, shift, current, sx)
    ensures pic.InkAt(sx, sy) == PairInk(pic, current)
  {
    assert Pairs(pic.bytes[q], sx % 4) & 0x03 == LowPair(pic.bytes[q], sx % 4);
    hide Pairs, LowPair;
    hide Picture.ByteAt;
  }

  lemma PairStarts(pic: Picture, q: int, shift: int, sx: int)
    requires 0 <= q < |pic.bytes| && shift == 2 * (sx % 4)
    ensures 0 <= shift < 8 && AtPair(pic, q, shift, Shifted(pic.bytes[q], shift), sx)
  {
  }

  function Shifted(byte: bv8, shift: int): bv8
    requires 0 <= shift < 8
  {
    byte >> shift
  }

  // `current` holds byte q shifted so that the pixel of source column sx is lowest.
  predicate AtPair(pic: Picture, q: int, shift: int, current: bv8, sx: int) {
    shift == 2 * (sx % 4) && 0 <= q < |pic.bytes| && current == Pairs(pic.bytes[q], sx % 4)
  }

  lemma TwoBitStep(pic: Picture, p: int, pixelPos: int, q: int, shift: int, current: bv8,
                   x: int, y: int, dx: int, dy: int)
    requires Standing(pic, p, pixelPos, q, x, y, dx, dy) && pic.bytes[0] == BITMAP_2BPP
    requires AtPair(pic, q, shift, current, x - dx)
    requires (x - dx) % 4 == 3 ==> q + 1 < |pic.bytes|
    ensures Standing(pic, if pixelPos + 1 > 1 then p + 1 else p, if pixelPos + 1 > 1 then 0 else pixelPos + 1,
                     if shift + 2 > 6 then q + 1 else q, x + 1, y, dx, dy)
    ensures shift + 2 > 6 ==> 0 <= q + 1 < |pic.bytes| && AtPair(pic, q + 1, 0, pic.bytes[q + 1], x + 1 - dx)
    ensures shift + 2 <= 6 ==> AtPair(pic, q, shift + 2, current >> 2, x + 1 - dx)
  {
    var k := (x - dx) % 4;
    PairsShift(pic.bytes[q], k);
    if shift + 2 > 6 { PairsShift(pic.bytes[q + 1], 0); }
    hide Pairs;
    StandOn(pic, p, pixelPos, q, x, y, dx, dy, shift + 2 > 6);
    hide Standing;
    assert (x + 1 - dx) % 4 == (k + 1) % 4;
  }

  method Row2BPP(buffer: array<bv8>, pic: Picture, pStart: int, pixelStart: int, qStart: int, shiftStart: int,
                 width: int, ghost start: seq<bv8>, ghost area: Rect, ghost y: int, ghost dx: int, ghost dy: int)
    requires buffer.Length == BUFFER_SIZE
    requires Sourced(pic, area, dx, dy) && area.yTop <= y < area.yBottom
    requires width == area.xRight - area.xLeft
    requires pic.bytes[0] == BITMAP_2BPP
    requires Standing(pic, pStart, pixelStart, qStart, area.xLeft, y, dx, dy)
    requires shiftStart == 2 * ((area.xLeft - dx) % 4)
    requires Blitting(pic, start, buffer[..], area, area.xLeft, y, dx, dy)
    modifies buffer
    ensures Blitting(pic, start, buffer[..], area, area.xRight, y, dx, dy)
  {
    var p, pixelPos, q, shift, left := pStart, pixelStart, qStart, shiftStart, width;
    ghost var x := area.xLeft;
    RowIsInside(pic, area, y, dx, dy);
    StandsInside(pic, area, p, pixelPos, q, x, y, dx, dy);
    PairStarts(pic, q, shift, x - dx);
    var current := Shifted(pic.bytes[q], shift);
    hide Blitting, Standing, Pairs, Sourced, AtPair, PairInk, Shifted;
    hide Picture.ByteAt, Picture.RowBytes, Picture.InkAt, Picture.Reads, Picture.Width, Picture.Height;
    while left > 0
      invariant 0 <= left && x + left == area.xRight && area.xLeft <= x
      invariant Standing(pic, p, pixelPos, q, x, y, dx, dy)
      invariant AtPair(pic, q, shift, current, x - dx)
      invariant Blitting(pic, start, buffer[..], area, x, y, dx, dy)
    {
      StandsInside(pic, area, p, pixelPos, q, x, y, dx, dy);
      TwoBitStep(pic, p, pixelPos, q, shift, current, x, y, dx, dy);
      TwoBitInk(pic, q, shift, current, x - dx, y - dy);
      PutInk(buffer, p, pixelPos, PairInk(pic, current), x, y, pic, start, area, dx, dy);
      shift := shift + 2;
      if shift > 6 {
        shift, q := 0, q + 1;
        current := pic.bytes[q];
      } else {
        current := current >> 2;
      }
      pixelPos := pixelPos + 1;
      if pixelPos > 1 {
        p, pixelPos := p + 1, 0;
      }
      left, x := left - 1, x + 1;
    }
  }

  lemma FourBitInk(pic: Picture, q: int, pixelSource: int, sx: int, sy: int)
    requires pic.Reads(sx, sy) && pic.bytes[0] == BITMAP_4BPP
    requires q == pic.ByteAt(sx, sy) && 0 <= q < |pic.bytes| && pixelSource == sx % 2
    ensures var byte := pic.bytes[q];
            var own := if pixelSource == 0 then byte & 0x03 else (byte >> 4) & 0x03;
            var trans := if pixelSource == 0 then byte & 0x0C else byte & 0xC0;
            pic.InkAt(sx, sy) ==
            if !pic.transparent then Ink(own)
            else if trans == 0 then Ink(if pic.tint.Fixed? then pic.tint.shade else own)
            else Clear
  {
    Nybbles(pic.bytes[q]);
    hide Picture.ByteAt;
  }

  lemma Nybbles(byte: bv8)
    ensures (byte & MASK_LO_NYBBLE) & 0x03 == byte & 0x03
    ensures (byte & MASK_LO_NYBBLE) & 0x0C == byte & 0x0C
    ensures (byte >> 4) & 0x0C == 0 <==> byte & 0xC0 == 0
  {
  }

  lemma FourBitStep(pic: Picture, p: int, pixelPos: int, q: int, pixelSource: int, x: int, y: int, dx: int, dy: int)
    requires Standing(pic, p, pixelPos, q, x, y, dx, dy) && pic.bytes[0] == BITMAP_4BPP
    requires pixelSource == (x - dx) % 2
    ensures Standing(pic, if pixelPos + 1 > 1 then p + 1 else p, if pixelPos + 1 > 1 then 0 else pixelPos + 1,
                     if pixelSource + 1 > 1 then q + 1 else q, x + 1, y, dx, dy)
    ensures (if pixelSource + 1 > 1 then 0 else pixelSource + 1) == (x + 1 - dx) % 2
  {
    StandOn(pic, p, pixelPos, q, x, y, dx, dy, pixelSource + 1 > 1);
  }

  // The transparent and the opaque loop of the four-bit routine differ only inside.
  method Row4BPP(buffer: array<bv8>, pic: Picture, pStart: int, pixelStart: int, qStart: int, sourceStart: int,
                 width: int, ghost start: seq<bv8>, ghost area: Rect, ghost y: int, ghost dx: int, ghost dy: int)
    requires buffer.Length == BUFFER_SIZE
    requires Sourced(pic, area, dx, dy) && area.yTop <= y < area.yBottom
    requires width == area.xRight - area.xLeft
    requires pic.bytes[0] == BITMAP_4BPP
    requires Standing(pic, pStart, pixelStart, qStart, area.xLeft, y, dx, dy)
    requires sourceStart == (area.xLeft - dx) % 2
    requires Blitting(pic, start, buffer[..], area, area.xLeft, y, dx, dy)
    modifies buffer
    ensures Blitting(pic, start, buffer[..], area, area.xRight, y, dx, dy)
  {
    var p, pixelPos, q, pixelSource, left := pStart, pixelStart, qStart, sourceStart, width;
    ghost var x := area.xLeft;
    RowIsInside(pic, area, y, dx, dy);
    hide Blitting, Standing, Sourced;
    hide Picture.ByteAt, Picture.RowBytes, Picture.InkAt, Picture.Reads, Picture.Width, Picture.Height;
    while left > 0
      invariant 0 <= left && x + left == area.xRight && area.xLeft <= x
      invariant Standing(pic, p, pixelPos, q, x, y, dx, dy)
      invariant pixelSource == (x - dx) % 2
      invariant Blitting(pic, start, buffer[..], area, x, y, dx, dy)
    {
      StandsInside(pic, area, p, pixelPos, q, x, y, dx, dy);
      FourBitStep(pic, p, pixelPos, q, pixelSource, x, y, dx, dy);
      FourBitInk(pic, q, pixelSource, x - dx, y - dy);
      var own := if pixelSource == 0 then pic.bytes[q] & 0x03 else (pic.bytes[q] >> 4) & 0x03;
      var trans := if pixelSource == 0 then pic.bytes[q] & 0x0C else pic.bytes[q] & 0xC0;
      var ink :=
        if !pic.transparent then Ink(own)
        else if trans == 0 then Ink(if pic.tint.Fixed? then pic.tint.shade else own)
        else Clear;
      PutInk(buffer, p, pixelPos, ink, x, y, pic, start, area, dx, dy);
      pixelSource := pixelSource + 1;
      if pixelSource > 1 {
        q, pixelSource := q + 1, 0;
      }
      pixelPos := pixelPos + 1;
      if pixelPos > 1 {
        p, pixelPos := p + 1, 0;
      }
      left, x := left - 1, x + 1;
    }
  }

  // The outer loop of the three routines: each row starts again from the saved
  // positions, one scanline further on.
  method DrawRows(buffer: array<bv8>, pic: Picture, area: Rect, sourceX: int, sourceY: int)
    requires buffer.Length == BUFFER_SIZE
    requires Sourced(pic, area, area.xLeft - sourceX, area.yTop - sourceY)
    modifies buffer
    ensures Copied(pic, old(buffer[..]), buffer[..], area.Pixels(), area.xLeft - sourceX, area.yTop - sourceY)
  {
    ghost var start, dx, dy, y := buffer[..], area.xLeft - sourceX, area.yTop - sourceY, area.yTop;
    var startBitmap := HEADER_SIZE + sourceY * pic.RowBytes() + sourceX / pic.PixelsPerByte();
    var startBuffer := BYTES_PER_SCANLINE * area.yTop + area.xLeft / 2;
    var startPos, width, rows := area.xLeft % 2, area.xRight - area.xLeft, area.yBottom - area.yTop;
    BlitStarts(pic, start, area, dx, dy);
    assert startBitmap == pic.ByteAt(sourceX, sourceY);
    assert area.xLeft <= area.xRight;
    assert pic.HasHeader() && pic.bytes[0] in {BITMAP_1BPP, BITMAP_2BPP, BITMAP_4BPP};
    hide Blitting, Sourced, Copied;
    hide Picture.ByteAt, Picture.InkAt, Picture.RowBytes;
    while rows > 0
      invariant 0 <= rows && y + rows == area.yBottom && area.yTop <= y
      invariant startBitmap == pic.ByteAt(sourceX, y - dy)
      invariant startBuffer == BYTES_PER_SCANLINE * y + area.xLeft / 2
      invariant Blitting(pic, start, buffer[..], area, area.xLeft, y, dx, dy)
      invariant rows == 0 ==> Copied(pic, start, buffer[..], area.Pixels(), dx, dy)
    {
      if pic.bytes[0] == BITMAP_1BPP {
        Row1BPP(buffer, pic, startBuffer, startPos, startBitmap, (0x80 as bv8) >> (sourceX % 8), width,
                start, area, y, dx, dy);
      } else if pic.bytes[0] == BITMAP_2BPP {
        Row2BPP(buffer, pic, startBuffer, startPos, startBitmap, 2 * (sourceX % 4), width, start, area, y, dx, dy);
      } else {
        Row4BPP(buffer, pic, startBuffer, startPos, startBitmap, sourceX % 2, width, start, area, y, dx, dy);
      }
      RowDone(pic, start, buffer[..], area, y, dx, dy);
      NextSource(pic, sourceX, y - dy);
      startBitmap, startBuffer := startBitmap + pic.RowBytes(), startBuffer + BYTES_PER_SCANLINE;
      rows, y := rows - 1, y + 1;
    }
  }

  // ---- Clipping ----

  // The rectangle a caller asks for: a size below one means the whole bitmap's.
  function Asked(size: int, whole: int): int {
    if size < 1 then whole else size
  }

  // Where the clipping ends one axis: at the clip, at the end of the request, or one bitmap after it began.
  function CutEnd(low: int, high: int, dest: int, asked: int, whole: int): int {
    Min(Min(dest + asked, Max(dest, low) + whole), high)
  }

  // One axis of the clipping: the low edge, then the size, then the high edge.
  method ClipAxis(low: int, high: int, dest: int, source: int, asked: int, whole: int)
    returns (d: int, s: int, size: int)
    ensures d == Max(dest, low) && d + size == CutEnd(low, high, dest, Asked(asked, whole), whole)
    ensures d - s == dest - source
  {
    d, s, size := dest, source, if asked < 1 then whole else asked;
    if d < low {
      var diff := low - d;
      s, size, d := s + diff, size - diff, low;
    }
    if size > whole { size := whole; }
    if d + size > high { size := high - d; }
  }

  // The area drawn for a request of the given size.
  function DrawnArea(clip: Rect, pic: Picture, destX: int, destY: int, width: int, height: int): Rect
    requires pic.HasHeader()
  {
    Rect(Max(destX, clip.xLeft), Max(destY, clip.yTop),
         CutEnd(clip.xLeft, clip.xRight, destX, Asked(width, pic.Width()), pic.Width()),
         CutEnd(clip.yTop, clip.yBottom, destY, Asked(height, pic.Height()), pic.Height()))
  }

  /**
   Every pixel of the area drawn shows what the address computed for it holds. The routine demands of its
   caller only that these bytes exist.
   */
  method DrawBitmap(buffer: array<bv8>, clip: Rect, pic: Picture, destX: int, destY: int,
                    sourceX: int, sourceY: int, width: int, height: int)
    requires buffer.Length == BUFFER_SIZE && clip.WithinScreen() && pic.HasHeader()
    requires pic.KnownFormat() ==>
               forall x, y | DrawnArea(clip, pic, destX, destY, width, height).Contains(x, y) ::
                 pic.Reads(x - (destX - sourceX), y - (destY - sourceY))
    modifies buffer
    ensures Copied(pic, old(buffer[..]), buffer[..], DrawnArea(clip, pic, destX, destY, width, height).Pixels(),
                   destX - sourceX, destY - sourceY)
  {
    ghost var start := buffer[..];
    var dx, sx, w := ClipAxis(clip.xLeft, clip.xRight, destX, sourceX, width, pic.Width());
    var dy, sy, h := ClipAxis(clip.yTop, clip.yBottom, destY, sourceY, height, pic.Height());
    var area := Rect(dx, dy, dx + w, dy + h);
    assert area == DrawnArea(clip, pic, destX, destY, width, height);
    if w > 0 && h > 0 {
      if pic.KnownFormat() {
        assert area.Valid() by { hide Picture.Reads; }
        hide Copied, Picture.InkAt, Picture.Reads, Picture.Width, Picture.Height, DrawnArea;
        DrawRows(buffer, pic, area, sx, sy);
      } else {
        CopiedUnknown(pic, start, area.Pixels(), destX - sourceX, destY - sourceY);
      }
    } else {
      hide Copied, Picture.InkAt, Picture.Reads, Picture.Width, Picture.Height, DrawnArea;
      assert area.Pixels() == iset{};
      CopiedNothing(pic, start, destX - sourceX, destY - sourceY);
    }
  }

  // The part of the request that is in the clip and in the bitmap.
  ghost function Wanted(clip: Rect, pic: Picture, destX: int, destY: int, sourceX: int, sourceY: int,
                        width: int, height: int): Region
    requires pic.HasHeader()
  {
    Block(destX, destY, Asked(width, pic.Width()), Asked(height, pic.Height())) * clip.Pixels()
    * Block(destX - sourceX, destY - sourceY, pic.Width(), pic.Height())
  }

  // On one axis the drawing begins and ends inside the bitmap.
  predicate AxisFits(low: int, high: int, dest: int, source: int, asked: int, whole: int) {
    dest - source <= Max(dest, low) && CutEnd(low, high, dest, asked, whole) <= dest - source + whole
  }

  predicate WantedAt(low: int, high: int, dest: int, source: int, asked: int, whole: int, x: int) {
    dest <= x < dest + asked && low <= x < high && dest - source <= x < dest - source + whole
  }

  lemma AxisIsExact(low: int, high: int, dest: int, source: int, asked: int, whole: int)
    ensures var d, end := Max(dest, low), CutEnd(low, high, dest, asked, whole);
            && (AxisFits(low, high, dest, source, asked, whole) ==>
                  forall x :: WantedAt(low, high, dest, source, asked, whole, x) <==> d <= x < end)
            && (d >= end ==> forall x :: !WantedAt(low, high, dest, source, asked, whole, x))
            && (!AxisFits(low, high, dest, source, asked, whole) ==>
                  !WantedAt(low, high, dest, source, asked, whole, d)
                  || !WantedAt(low, high, dest, source, asked, whole, end - 1))
  {
  }

  /** The area drawn is the wanted part of the bitmap exactly when it fits on both axes or is empty. */
  lemma CopyIsExact(clip: Rect, pic: Picture, destX: int, destY: int, sourceX: int, sourceY: int,
                    width: int, height: int)
    requires pic.HasHeader()
    ensures var area := DrawnArea(clip, pic, destX, destY, width, height);
            area.Pixels() == Wanted(clip, pic, destX, destY, sourceX, sourceY, width, height)
            <==>
            || area.xLeft >= area.xRight || area.yTop >= area.yBottom
            || (AxisFits(clip.xLeft, clip.xRight, destX, sourceX, Asked(width, pic.Width()), pic.Width())
                && AxisFits(clip.yTop, clip.yBottom, destY, sourceY, Asked(height, pic.Height()), pic.Height()))
  {
    var area := DrawnArea(clip, pic, destX, destY, width, height);
    var wanted := Wanted(clip, pic, destX, destY, sourceX, sourceY, width, height);
    var w, h := pic.Width(), pic.Height();
    var askedX, askedY := Asked(width, w), Asked(height, h);
    AxisIsExact(clip.xLeft, clip.xRight, destX, sourceX, askedX, w);
    AxisIsExact(clip.yTop, clip.yBottom, destY, sourceY, askedY, h);
    assert forall p: (int, int) :: p in wanted <==>
      WantedAt(clip.xLeft, clip.xRight, destX, sourceX, askedX, w, p.0)
      && WantedAt(clip.yTop, clip.yBottom, destY, sourceY, askedY, h, p.1);
    assert forall p: (int, int) :: p in area.Pixels() <==> area.Contains(p.0, p.1);
    assert area.xLeft < area.xRight && area.yTop < area.yBottom ==>
             (area.xLeft, area.yTop) in area.Pixels() && (area.xRight - 1, area.yBottom - 1) in area.Pixels();
    hide Rect.Pixels, Picture.Width, Picture.Height, WantedAt, AxisFits, CutEnd;
  }

  // The asked-for source rectangle lies in a complete bitmap, or the bitmap's format is unknown.
  predicate InRange(pic: Picture, sourceX: int, sourceY: int, width: int, height: int) {
    && pic.HasHeader() && (pic.KnownFormat() ==> pic.LongEnough())
    && 0 <= sourceX && sourceX + Asked(width, pic.Width()) <= pic.Width()
    && 0 <= sourceY && sourceY + Asked(height, pic.Height()) <= pic.Height()
  }

  /**
   On each axis a pixel is drawn exactly when it is in the clip, not before the request and not past its end:
   the size asked for, where a size below one asks for the whole bitmap, and never more than a bitmap after
   the first pixel drawn.
   */
  lemma DrawnInNumbers(clip: Rect, pic: Picture, destX: int, destY: int, width: int, height: int, x: int, y: int)
    requires pic.HasHeader()
    ensures DrawnArea(clip, pic, destX, destY, width, height).Contains(x, y) <==>
            && clip.xLeft <= x < clip.xRight && destX <= x
            && (1 <= width ==> x < destX + width)
            && x < destX + pic.Width() + (if 1 <= width && destX < clip.xLeft then clip.xLeft - destX else 0)
            && clip.yTop <= y < clip.yBottom && destY <= y
            && (1 <= height ==> y < destY + height)
            && y < destY + pic.Height() + (if 1 <= height && destY < clip.yTop then clip.yTop - destY else 0)
  {
    hide Picture.Width, Picture.Height;
  }

  /** A request inside the bitmap can always be made, and is cut to the clip alone. */
  lemma InRangeFits(clip: Rect, pic: Picture, destX: int, destY: int, sourceX: int, sourceY: int,
                    width: int, height: int)
    requires InRange(pic, sourceX, sourceY, width, height)
    ensures var area := DrawnArea(clip, pic, destX, destY, width, height);
            && area.Pixels()
               == Block(destX, destY, Asked(width, pic.Width()), Asked(height, pic.Height())) * clip.Pixels()
            && (pic.KnownFormat() ==>
                  forall x, y | area.Contains(x, y) :: pic.Reads(x - (destX - sourceX), y - (destY - sourceY)))
  {
    var area := DrawnArea(clip, pic, destX, destY, width, height);
    if pic.KnownFormat() {
      forall x, y | area.Contains(x, y) ensures pic.Reads(x - (destX - sourceX), y - (destY - sourceY)) {
        assert pic.Has(x - (destX - sourceX), y - (destY - sourceY)) by { hide Picture.Width, Picture.Height; }
        ByteInBitmap(pic, x - (destX - sourceX), y - (destY - sourceY));
      }
    }
    hide Picture.Reads, Picture.Width, Picture.Height, Picture.LongEnough;
  }
}
