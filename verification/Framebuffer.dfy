/**
 The packed display buffer of vfdlib: 2048 bytes, two pixels a byte, 64 bytes a scanline.
 An even column is the low nybble of its byte, an odd column the high nybble.

 Every drawing routine is specified by the picture it leaves behind: `Painted` says that
 exactly the on-screen pixels of a region have taken a shade and no other pixel moved.
 */
module Framebuffer {

  const WIDTH := 128
  const HEIGHT := 32
  const BYTES_PER_SCANLINE := 64
  const BUFFER_SIZE := 2048

  const MASK_LO_NYBBLE: bv8 := 0x0F
  const MASK_HI_NYBBLE: bv8 := 0xF0

  /** A shade fits one nybble; the four named shades are 0 to 3. */
  type Shade = s: bv8 | s < 16 witness 0

  type Region = iset<(int, int)>

  predicate OnScreen(x: int, y: int) {
    0 <= x < WIDTH && 0 <= y < HEIGHT
  }

  /** The shade of one pixel, read back from the packed bytes. */
  function Pixel(b: seq<bv8>, x: int, y: int): bv8
    requires |b| == BUFFER_SIZE && OnScreen(x, y)
  {
    if x % 2 == 1 then b[BYTES_PER_SCANLINE * y + x / 2] >> 4
    else b[BYTES_PER_SCANLINE * y + x / 2] & MASK_LO_NYBBLE
  }

  /** Two pixels make a byte: 64 bytes a row, the even column in the low nybble. */
  lemma PixelsMakeByte(b: seq<bv8>, h: int, y: int)
    requires |b| == 2048 && 0 <= h < 64 && 0 <= y < 32
    ensures b[64 * y + h] == Pixel(b, 2 * h, y) | (Pixel(b, 2 * h + 1, y) << 4)
    ensures Pixel(b, 2 * h, y) < 16 && Pixel(b, 2 * h + 1, y) < 16
  {
  }

  /** `after` shows `shade` on the on-screen part of `r` and is `before` everywhere else. */
  ghost predicate Painted(before: seq<bv8>, after: seq<bv8>, r: Region, shade: Shade) {
    && |before| == BUFFER_SIZE
    && |after| == BUFFER_SIZE
    && forall x, y {:trigger Pixel(after, x, y)} | OnScreen(x, y) ::
         Pixel(after, x, y) == if (x, y) in r then shade else Pixel(before, x, y)
  }

  lemma PaintedNothing(b: seq<bv8>, shade: Shade)
    requires |b| == BUFFER_SIZE
    ensures Painted(b, b, iset{}, shade)
  {
  }

  lemma PaintedThen(b0: seq<bv8>, b1: seq<bv8>, b2: seq<bv8>, r1: Region, r2: Region, shade: Shade)
    requires Painted(b0, b1, r1, shade)
    requires Painted(b1, b2, r2, shade)
    ensures Painted(b0, b2, r1 + r2, shade)
  {
  }

  /** Only the on-screen part of a region matters. */
  lemma PaintedSame(b0: seq<bv8>, b1: seq<bv8>, r: Region, q: Region, shade: Shade)
    requires Painted(b0, b1, r, shade)
    requires forall x, y | OnScreen(x, y) :: (x, y) in r <==> (x, y) in q
    ensures Painted(b0, b1, q, shade)
  {
  }

  /** Two paintings of the same region differ nowhere: a region and a shade fix the picture. */
  lemma PaintedUnique(b: seq<bv8>, b1: seq<bv8>, b2: seq<bv8>, r: Region, shade: Shade)
    requires Painted(b, b1, r, shade)
    requires Painted(b, b2, r, shade)
    ensures b1 == b2
  {
    forall i | 0 <= i < BUFFER_SIZE
      ensures b1[i] == b2[i]
    {
      var y, x := i / BYTES_PER_SCANLINE, 2 * (i % BYTES_PER_SCANLINE);
      assert OnScreen(x, y) && OnScreen(x + 1, y);
      assert Pixel(b1, x, y) == Pixel(b2, x, y);
      assert Pixel(b1, x + 1, y) == Pixel(b2, x + 1, y);
      NybblesMakeByte(b1[i], b2[i]);
    }
  }

  lemma NybblesMakeByte(p: bv8, q: bv8)
    requires p & MASK_LO_NYBBLE == q & MASK_LO_NYBBLE
    requires p >> 4 == q >> 4
    ensures p == q
  {
  }

  lemma NybbleWrites(b: bv8, s: Shade)
    ensures ((b & MASK_HI_NYBBLE) | s) & MASK_LO_NYBBLE == s
    ensures ((b & MASK_HI_NYBBLE) | s) >> 4 == b >> 4
    ensures ((b & MASK_LO_NYBBLE) | (s << 4)) & MASK_LO_NYBBLE == b & MASK_LO_NYBBLE
    ensures ((b & MASK_LO_NYBBLE) | (s << 4)) >> 4 == s
    ensures (s | (s << 4)) & MASK_LO_NYBBLE == s
    ensures (s | (s << 4)) >> 4 == s
  {
  }

  /**
   The three byte writes of the library, at byte `h` of scanline `y`. Each extends a painting in
   progress: `start` is the buffer before the shape and `r` the region painted since.
   */

  // *p &= 0xF0; *p |= shade
  method SetLo(buffer: array<bv8>, p: int, shade: Shade, ghost h: int, ghost y: int,
               ghost start: seq<bv8>, ghost r: Region)
    requires buffer.Length == BUFFER_SIZE
    requires OnScreen(2 * h, y) && p == BYTES_PER_SCANLINE * y + h
    requires Painted(start, buffer[..], r, shade)
    modifies buffer
    ensures Painted(start, buffer[..], r + iset{(2 * h, y)}, shade)
  {
    ghost var before := buffer[..];
    NybbleWrites(buffer[p], shade);
    buffer[p] := (buffer[p] & MASK_HI_NYBBLE) | shade;
    assert Painted(before, buffer[..], iset{(2 * h, y)}, shade);
    PaintedThen(start, before, buffer[..], r, iset{(2 * h, y)}, shade);
  }

  // *p &= 0x0F; *p |= shade << 4
  method SetHi(buffer: array<bv8>, p: int, shade: Shade, ghost h: int, ghost y: int,
               ghost start: seq<bv8>, ghost r: Region)
    requires buffer.Length == BUFFER_SIZE
    requires OnScreen(2 * h, y) && p == BYTES_PER_SCANLINE * y + h
    requires Painted(start, buffer[..], r, shade)
    modifies buffer
    ensures Painted(start, buffer[..], r + iset{(2 * h + 1, y)}, shade)
  {
    ghost var before := buffer[..];
    NybbleWrites(buffer[p], shade);
    buffer[p] := (buffer[p] & MASK_LO_NYBBLE) | (shade << 4);
    assert Painted(before, buffer[..], iset{(2 * h + 1, y)}, shade);
    PaintedThen(start, before, buffer[..], r, iset{(2 * h + 1, y)}, shade);
  }

  // *p = shade | (shade << 4)
  method SetBoth(buffer: array<bv8>, p: int, shade: Shade, ghost h: int, ghost y: int,
                 ghost start: seq<bv8>, ghost r: Region)
    requires buffer.Length == BUFFER_SIZE
    requires OnScreen(2 * h, y) && p == BYTES_PER_SCANLINE * y + h
    requires Painted(start, buffer[..], r, shade)
    modifies buffer
    ensures Painted(start, buffer[..], r + iset{(2 * h, y), (2 * h + 1, y)}, shade)
  {
    ghost var before := buffer[..];
    NybbleWrites(buffer[p], shade);
    buffer[p] := shade | (shade << 4);
    assert Painted(before, buffer[..], iset{(2 * h, y), (2 * h + 1, y)}, shade);
    PaintedThen(start, before, buffer[..], r, iset{(2 * h, y), (2 * h + 1, y)}, shade);
  }
}
