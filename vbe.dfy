/** The framebuffer renderer (src/include/drivers/vbe.h): an 800x600
    back buffer of 32-bit pixels addressed as `y * pitch + x`, drawn into
    by pixel, fill, rectangle and 8x16 bitmap-glyph operations, and copied
    to the hardware framebuffer on a swap. */
module Vbe {
  import opened Hw

  /** Capacity of `backbuffer`, in 32-bit words. */
  const BackWords: nat := 800 * 600
  const GlyphRows: nat := 16
  const GlyphCols: nat := 8
  /** One 16-byte glyph for each of the 256 byte values. */
  const FontBytes: nat := 256 * 16

  /** The bit masks of `vbe_putchar`; column cx tests `Mask[7 - cx]`, so the
      most significant bit is the leftmost pixel. */
  const Mask: seq<bv8> := [1, 2, 4, 8, 16, 32, 64, 128]

  /** pixel(r, g, b): packed 0x00RRGGBB, from which the three channels
      are recovered unchanged. */
  function Pixel(r: bv8, g: bv8, b: bv8): (p: bv32)
    ensures p >> 24 == 0
    ensures (p >> 16) as bv8 == r && ((p >> 8) & 0xFF) as bv8 == g && (p & 0xFF) as bv8 == b
  {
    ((r as bv32) << 16) | ((g as bv32) << 8) | (b as bv32)
  }

  /** The fields of the boot information the renderer reads. */
  datatype BootInfo = BootInfo(framebufferAddr: u64, framebufferPitch: u32, framebufferHeight: u32)

  /** vbe_init's `pitch`: bytes per scanline over four, in whole pixels. */
  function PitchPixels(info: BootInfo): (pitch: u32)
    ensures 4 * pitch <= info.framebufferPitch < 4 * pitch + 4
  {
    info.framebufferPitch / 4
  }

  /** vbe_init's `size`: pitch times height, stored in 32 bits. */
  function SizeBytes(info: BootInfo): u32 {
    Wrap32(info.framebufferPitch * info.framebufferHeight)
  }

  /** Index of pixel (x, y) in a buffer with `pitch` pixels per scanline. */
  function Offset(x: int, y: int, pitch: int): int {
    y * pitch + x
  }

  lemma MulMonotone(a: nat, b: nat, c: nat)
    requires a <= b
    ensures a * c <= b * c
  {
  }

  lemma OffsetMonotone(x: nat, y: nat, x2: nat, y2: nat, pitch: nat)
    requires x <= x2 && y <= y2
    ensures Offset(x, y, pitch) <= Offset(x2, y2, pitch)
  {
    MulMonotone(y, y2, pitch);
  }

  /** Within a scanline, distinct pixels have distinct indices. */
  lemma OffsetInjective(x: nat, y: nat, x2: nat, y2: nat, pitch: nat)
    requires x < pitch && x2 < pitch
    requires Offset(x, y, pitch) == Offset(x2, y2, pitch)
    ensures x == x2 && y == y2
  {
    if y < y2 {
      MulMonotone(y + 1, y2, pitch);
    } else if y2 < y {
      MulMonotone(y2 + 1, y, pitch);
    }
  }

  /** Index k is a pixel (i, j) with x <= i < x + w and y <= j < y + h. */
  ghost predicate InRect(k: int, x: int, y: int, w: int, h: int, pitch: int) {
    exists i, j :: x <= i < x + w && y <= j < y + h && Offset(i, j, pitch) == k
  }

  lemma DivModOffset(k: nat, pitch: nat)
    requires 0 < pitch
    ensures Offset(k % pitch, k / pitch, pitch) == k
  {
  }

  /** The pixel (i, j) at index k is in the rectangle exactly when its
      column and row fall in the rectangle's ranges. */
  lemma RectCell(k: nat, i: nat, j: nat, x: nat, y: nat, w: nat, h: nat, pitch: nat)
    requires i < pitch && x + w <= pitch && Offset(i, j, pitch) == k
    ensures InRect(k, x, y, w, h, pitch) <==> x <= i < x + w && y <= j < y + h
  {
    if InRect(k, x, y, w, h, pitch) {
      var i', j' :| x <= i' < x + w && y <= j' < y + h && Offset(i', j', pitch) == k;
      OffsetInjective(i', j', i, j, pitch);
    }
  }

  /** When the rectangle does not run past the end of a scanline, its
      indices are exactly those whose column and row fall in its ranges. */
  lemma RectByColumnAndRow(k: nat, x: nat, y: nat, w: nat, h: nat, pitch: nat)
    requires 0 < pitch && x + w <= pitch
    ensures InRect(k, x, y, w, h, pitch) <==>
      x <= k % pitch < x + w && y <= k / pitch < y + h
  {
    DivModOffset(k, pitch);
    RectCell(k, k % pitch, k / pitch, x, y, w, h, pitch);
  }

  /** The back buffer after filling the rectangle (x, y, w, h) with `color`. */
  ghost function Painted(b: seq<bv32>, x: int, y: int, w: int, h: int, pitch: int, color: bv32): seq<bv32> {
    seq(|b|, k requires 0 <= k < |b| => if InRect(k, x, y, w, h, pitch) then color else b[k])
  }

  /** Painting a column one pixel taller sets exactly that pixel more. */
  lemma PaintedTaller(b: seq<bv32>, x: int, y: int, h: nat, pitch: int, color: bv32)
    requires 0 <= Offset(x, y + h, pitch) < |b|
    ensures Painted(b, x, y, 1, h + 1, pitch, color) == Painted(b, x, y, 1, h, pitch, color)[Offset(x, y + h, pitch) := color]
  {
    forall k | 0 <= k < |b|
      ensures InRect(k, x, y, 1, h + 1, pitch) <==> InRect(k, x, y, 1, h, pitch) || k == Offset(x, y + h, pitch)
    {
      if InRect(k, x, y, 1, h + 1, pitch) {
        var i, j :| x <= i < x + 1 && y <= j < y + h + 1 && Offset(i, j, pitch) == k;
        if j < y + h {
          assert InRect(k, x, y, 1, h, pitch);
        }
      }
      if k == Offset(x, y + h, pitch) {
        assert x <= x < x + 1 && y <= y + h < y + h + 1;
      }
    }
  }

  /** Painting a rectangle and then the column to its right paints the
      rectangle one pixel wider. */
  lemma PaintedWider(b: seq<bv32>, x: int, y: int, w: nat, h: int, pitch: int, color: bv32)
    ensures Painted(Painted(b, x, y, w, h, pitch, color), x + w, y, 1, h, pitch, color) == Painted(b, x, y, w + 1, h, pitch, color)
  {
    forall k | 0 <= k < |b|
      ensures InRect(k, x, y, w + 1, h, pitch) <==> InRect(k, x, y, w, h, pitch) || InRect(k, x + w, y, 1, h, pitch)
    {
      if InRect(k, x, y, w + 1, h, pitch) {
        var i, j :| x <= i < x + w + 1 && y <= j < y + h && Offset(i, j, pitch) == k;
        if i < x + w {
          assert InRect(k, x, y, w, h, pitch);
        } else {
          assert InRect(k, x + w, y, 1, h, pitch);
        }
      }
    }
  }

  /** The words `vbe_fill` covers set to `color`, the rest kept. */
  function Filled(b: seq<bv32>, n: nat, color: bv32): (r: seq<bv32>)
    ensures |r| == |b|
  {
    seq(|b|, k requires 0 <= k < |b| => if k < n then color else b[k])
  }

  lemma FillIdempotent(b: seq<bv32>, n: nat, color: bv32)
    ensures Filled(Filled(b, n, color), n, color) == Filled(b, n, color)
  {
  }

  /** Every pixel of a w-by-h block at (x, y) lies in the buffer and has
      16-bit coordinates. */
  predicate BlockFits(x: nat, y: nat, w: nat, h: nat, pitch: nat) {
    w == 0 || h == 0 ||
    (x + w <= 0x1_0000 && y + h <= 0x1_0000 && Offset(x + w - 1, y + h - 1, pitch) < BackWords)
  }

  /** Row cy of glyph c: byte 16 * c + cy of the font. */
  function GlyphRow(font: seq<bv8>, c: u8, cy: nat): bv8
    requires |font| >= FontBytes && cy < GlyphRows
  {
    font[c * 16 + cy]
  }

  /** Bit (7 - cx) of row cy of glyph c. */
  predicate GlyphBit(font: seq<bv8>, c: u8, cx: nat, cy: nat)
    requires |font| >= FontBytes && cx < GlyphCols && cy < GlyphRows
  {
    GlyphRow(font, c, cy) & Mask[7 - cx] != 0
  }

  /** Cell m (column m % 8, row m / 8) of glyph c is set and its scaled block
      contains index k. */
  ghost predicate CellPainted(font: seq<bv8>, pitch: nat, c: u8, x: nat, y: nat, scale: nat, m: nat, k: int)
    requires |font| >= FontBytes && m < GlyphCols * GlyphRows
  {
    GlyphBit(font, c, m % 8, m / 8) &&
    InRect(k, x + (m % 8) * scale, y + (m / 8) * scale, scale, scale, pitch)
  }

  /** Some set cell among the first n of glyph c covers index k. */
  ghost predicate GlyphCovers(font: seq<bv8>, pitch: nat, c: u8, x: nat, y: nat, scale: nat, n: nat, k: int)
    requires |font| >= FontBytes && n <= GlyphCols * GlyphRows
  {
    exists m :: 0 <= m < n && CellPainted(font, pitch, c, x, y, scale, m, k)
  }

  /** The back buffer after the first n cells of glyph c have been drawn,
      row by row and left to right: cell m is column m % 8 of row m / 8,
      and a set cell paints its scale-by-scale block. */
  ghost function GlyphPrefix(b: seq<bv32>, font: seq<bv8>, pitch: nat, c: u8, x: nat, y: nat, color: bv32, scale: nat, n: nat): (r: seq<bv32>)
    requires |font| >= FontBytes && n <= GlyphCols * GlyphRows
    ensures |r| == |b|
    decreases n
  {
    if n == 0 then b
    else
      var before := GlyphPrefix(b, font, pitch, c, x, y, color, scale, n - 1);
      var cx, cy := (n - 1) % 8, (n - 1) / 8;
      if GlyphBit(font, c, cx, cy)
      then Painted(before, x + cx * scale, y + cy * scale, scale, scale, pitch, color)
      else before
  }

  lemma GlyphCoversStep(font: seq<bv8>, pitch: nat, c: u8, x: nat, y: nat, scale: nat, m: nat, k: int)
    requires |font| >= FontBytes && m < GlyphCols * GlyphRows
    ensures GlyphCovers(font, pitch, c, x, y, scale, m + 1, k) <==>
      GlyphCovers(font, pitch, c, x, y, scale, m, k) || CellPainted(font, pitch, c, x, y, scale, m, k)
  {
    if GlyphCovers(font, pitch, c, x, y, scale, m + 1, k) {
      var m' :| 0 <= m' < m + 1 && CellPainted(font, pitch, c, x, y, scale, m', k);
      if m' < m {
        assert GlyphCovers(font, pitch, c, x, y, scale, m, k);
      }
    }
  }

  /** After the first n cells, a pixel holds `color` exactly when the block
      of one of those cells with its bit set covers it; every other pixel
      keeps its value. */
  lemma {:induction false} GlyphPrefixCovers(b: seq<bv32>, font: seq<bv8>, pitch: nat, c: u8, x: nat, y: nat, color: bv32, scale: nat, n: nat, k: int)
    requires |font| >= FontBytes && n <= GlyphCols * GlyphRows && 0 <= k < |b|
    ensures GlyphPrefix(b, font, pitch, c, x, y, color, scale, n)[k] ==
      if GlyphCovers(font, pitch, c, x, y, scale, n, k) then color else b[k]
  {
    if n > 0 {
      GlyphPrefixCovers(b, font, pitch, c, x, y, color, scale, n - 1, k);
      GlyphCoversStep(font, pitch, c, x, y, scale, n - 1, k);
    }
  }

  /** One step of the loop over the cells: the cell in column cx of row cy. */
  lemma GlyphPrefixStep(b: seq<bv32>, font: seq<bv8>, pitch: nat, c: u8, x: nat, y: nat, color: bv32, scale: nat, cx: nat, cy: nat)
    requires |font| >= FontBytes && cx < GlyphCols && cy < GlyphRows
    ensures GlyphPrefix(b, font, pitch, c, x, y, color, scale, GlyphCols * cy + cx + 1) ==
      var before := GlyphPrefix(b, font, pitch, c, x, y, color, scale, GlyphCols * cy + cx);
      if GlyphBit(font, c, cx, cy)
      then Painted(before, x + cx * scale, y + cy * scale, scale, scale, pitch, color)
      else before
  {
    var m := GlyphCols * cy + cx;
    assert m % 8 == cx && m / 8 == cy;
  }

  /** The back buffer after vbe_putchar(c, x, y, color, scale). */
  ghost function DrawChar(b: seq<bv32>, font: seq<bv8>, pitch: nat, c: u8, x: nat, y: nat, color: bv32, scale: nat): seq<bv32>
    requires |font| >= FontBytes
  {
    if c == Newline then b else GlyphPrefix(b, font, pitch, c, x, y, color, scale, GlyphCols * GlyphRows)
  }

  /** A set bit (7 - cx) in row cy paints the whole scale-by-scale block
      at (x + cx * scale, y + cy * scale). */
  lemma {:induction false} DrawCharPaintsSetBit(b: seq<bv32>, font: seq<bv8>, pitch: nat, c: u8, x: nat, y: nat, color: bv32,
                                                scale: nat, cx: nat, cy: nat, s: nat, s1: nat)
    requires |font| >= FontBytes && c != Newline
    requires cx < GlyphCols && cy < GlyphRows && s < scale && s1 < scale
    requires GlyphBit(font, c, cx, cy)
    requires 0 <= Offset(x + cx * scale + s, y + cy * scale + s1, pitch) < |b|
    ensures DrawChar(b, font, pitch, c, x, y, color, scale)[Offset(x + cx * scale + s, y + cy * scale + s1, pitch)] == color
  {
    var m := 8 * cy + cx;
    var k := Offset(x + cx * scale + s, y + cy * scale + s1, pitch);
    assert m % 8 == cx && m / 8 == cy;
    assert InRect(k, x + cx * scale, y + cy * scale, scale, scale, pitch);
    assert CellPainted(font, pitch, c, x, y, scale, m, k);
    GlyphPrefixCovers(b, font, pitch, c, x, y, color, scale, GlyphCols * GlyphRows, k);
  }

  /** Conversely, a pixel that changes lies in the block of some set bit. */
  lemma DrawCharOnlySetBits(b: seq<bv32>, font: seq<bv8>, pitch: nat, c: u8, x: nat, y: nat, color: bv32, scale: nat, k: int)
    requires |font| >= FontBytes && 0 <= k < |b|
    requires DrawChar(b, font, pitch, c, x, y, color, scale)[k] != b[k]
    ensures c != Newline && DrawChar(b, font, pitch, c, x, y, color, scale)[k] == color
    ensures exists cx, cy ::
      && 0 <= cx < GlyphCols && 0 <= cy < GlyphRows && GlyphBit(font, c, cx, cy)
      && InRect(k, x + cx * scale, y + cy * scale, scale, scale, pitch)
  {
    GlyphPrefixCovers(b, font, pitch, c, x, y, color, scale, GlyphCols * GlyphRows, k);
    var m :| 0 <= m < GlyphCols * GlyphRows && CellPainted(font, pitch, c, x, y, scale, m, k);
    var cx, cy := m % 8, m / 8;
    assert GlyphBit(font, c, cx, cy) && InRect(k, x + cx * scale, y + cy * scale, scale, scale, pitch);
  }

  /** A glyph whose sixteen rows are all zero draws nothing. */
  lemma BlankGlyphDrawsNothing(b: seq<bv32>, font: seq<bv8>, pitch: nat, c: u8, x: nat, y: nat, color: bv32, scale: nat)
    requires |font| >= FontBytes
    requires forall cy :: 0 <= cy < GlyphRows ==> GlyphRow(font, c, cy) == 0
    ensures DrawChar(b, font, pitch, c, x, y, color, scale) == b
  {
    forall k | 0 <= k < |b|
      ensures DrawChar(b, font, pitch, c, x, y, color, scale)[k] == b[k]
    {
      GlyphPrefixCovers(b, font, pitch, c, x, y, color, scale, GlyphCols * GlyphRows, k);
      forall m | 0 <= m < GlyphCols * GlyphRows
        ensures !CellPainted(font, pitch, c, x, y, scale, m, k)
      {
        assert GlyphRow(font, c, m / 8) == 0;
      }
    }
  }

  /** At scale 0 every block is empty, so nothing is drawn. */
  lemma ZeroScaleDrawsNothing(b: seq<bv32>, font: seq<bv8>, pitch: nat, c: u8, x: nat, y: nat, color: bv32)
    requires |font| >= FontBytes
    ensures DrawChar(b, font, pitch, c, x, y, color, 0) == b
  {
    forall k | 0 <= k < |b|
      ensures DrawChar(b, font, pitch, c, x, y, color, 0)[k] == b[k]
    {
      GlyphPrefixCovers(b, font, pitch, c, x, y, color, 0, GlyphCols * GlyphRows, k);
      forall m | 0 <= m < GlyphCols * GlyphRows
        ensures !CellPainted(font, pitch, c, x, y, 0, m, k)
      {
      }
    }
  }

  /** Every pixel a glyph at (x, y) may paint lies in the buffer and has
      16-bit coordinates. */
  predicate GlyphFits(x: nat, y: nat, scale: nat, pitch: nat) {
    BlockFits(x, y, GlyphCols * scale, GlyphRows * scale, pitch)
  }

  lemma GlyphBlockFits(x: nat, y: nat, scale: nat, pitch: nat, cx: nat, cy: nat)
    requires GlyphFits(x, y, scale, pitch) && cx < GlyphCols && cy < GlyphRows
    ensures 0 <= cx * scale && 0 <= cy * scale
    ensures BlockFits(x + cx * scale, y + cy * scale, scale, scale, pitch)
  {
    if scale > 0 {
      MulMonotone(cx + 1, GlyphCols, scale);
      MulMonotone(cy + 1, GlyphRows, scale);
      OffsetMonotone(x + cx * scale + scale - 1, y + cy * scale + scale - 1,
                     x + GlyphCols * scale - 1, y + GlyphRows * scale - 1, pitch);
    }
  }

  /** vbe_write_string: each character drawn 8 * scale pixels right of the
      one before, the x coordinate computed in 32-bit unsigned arithmetic. */
  ghost function DrawString(b: seq<bv32>, font: seq<bv8>, pitch: nat, s: seq<u8>, x: u32, y: nat, color: bv32, scale: nat): seq<bv32>
    requires |font| >= FontBytes
    decreases |s|
  {
    if s == [] then b
    else DrawString(DrawChar(b, font, pitch, s[0], x, y, color, scale), font, pitch, s[1..],
                    Wrap32(x + GlyphCols * scale), y, color, scale)
  }

  /** One glyph's step after n more, in 32-bit unsigned arithmetic. */
  lemma Advance(x: int, w: int, n: nat)
    ensures Wrap32(Wrap32(x + w) + w * n) == Wrap32(x + w * (n + 1))
  {
    Wrap32Add(x + w, w * n);
    assert w + w * n == w * (n + 1);
  }

  /** n glyphs' steps, then one more, in 32-bit unsigned arithmetic. */
  lemma AdvanceLast(x: int, w: int, n: nat)
    ensures Wrap32(Wrap32(x + w * n) + w) == Wrap32(x + w * (n + 1))
  {
    Wrap32Add(x + w * n, w);
    assert w * n + w == w * (n + 1);
  }

  /** The source's `i * 8 * scale` is i glyph widths. */
  lemma GlyphOffset(i: nat, scale: nat)
    ensures i * 8 * scale == GlyphCols * scale * i
  {
  }

  /** Drawing a + c is drawing a, then drawing c from |a| glyphs further right. */
  lemma {:induction false} DrawStringAppend(b: seq<bv32>, font: seq<bv8>, pitch: nat, a: seq<u8>, c: seq<u8>,
                                            x: u32, y: nat, color: bv32, scale: nat)
    requires |font| >= FontBytes
    ensures DrawString(b, font, pitch, a + c, x, y, color, scale)
         == DrawString(DrawString(b, font, pitch, a, x, y, color, scale), font, pitch, c,
                       Wrap32(x + GlyphCols * scale * |a|), y, color, scale)
    decreases |a|
  {
    if a == [] {
      assert a + c == c;
    } else {
      assert (a + c)[0] == a[0] && (a + c)[1..] == a[1..] + c;
      var x' := Wrap32(x + GlyphCols * scale);
      DrawStringAppend(DrawChar(b, font, pitch, a[0], x, y, color, scale), font, pitch, a[1..], c, x', y, color, scale);
      Advance(x, GlyphCols * scale, |a| - 1);
    }
  }

  /** Character i of a string is drawn over the first i characters'
      drawing, at x + 8 * scale * i (modulo 2^32), and the rest follow it. */
  lemma DrawStringAt(b: seq<bv32>, font: seq<bv8>, pitch: nat, s: seq<u8>, x: u32, y: nat, color: bv32, scale: nat, i: nat)
    requires |font| >= FontBytes && i < |s|
    ensures DrawString(b, font, pitch, s, x, y, color, scale)
         == DrawString(DrawChar(DrawString(b, font, pitch, s[..i], x, y, color, scale), font, pitch, s[i],
                                Wrap32(x + GlyphCols * scale * i), y, color, scale),
                       font, pitch, s[i + 1..], Wrap32(x + GlyphCols * scale * (i + 1)), y, color, scale)
  {
    assert s == s[..i] + s[i..];
    DrawStringAppend(b, font, pitch, s[..i], s[i..], x, y, color, scale);
    assert s[i..][0] == s[i] && s[i..][1..] == s[i + 1..];
    AdvanceLast(x, GlyphCols * scale, i);
  }

  /** Every character of s that draws anything fits where it is drawn. */
  predicate StringFits(s: seq<u8>, x: u32, y: nat, scale: nat, pitch: nat) {
    forall i :: 0 <= i < |s| && s[i] != Newline ==> GlyphFits(Wrap32(x + GlyphCols * scale * i), y, scale, pitch)
  }

  /** What the hardware framebuffer shows after a swap: the whole back
      buffer, then whatever the framebuffer held beyond it. */
  function Shown(front: seq<bv32>, back: seq<bv32>): (r: seq<bv32>)
    requires |back| <= |front|
    ensures |r| == |front|
  {
    back + front[|back|..]
  }

  /** A pixel plotted before a swap is visible at its index, and nothing
      else on screen differs from swapping without it. */
  lemma PlotThenSwap(front: seq<bv32>, back: seq<bv32>, k: nat, color: bv32)
    requires |back| <= |front| && k < |back|
    ensures Shown(front, back[k := color])[k] == color
    ensures forall i :: 0 <= i < |front| && i != k ==>
      Shown(front, back[k := color])[i] == Shown(front, back)[i]
  {
  }

  /** The renderer's globals: `backbuffer`, `pitch`, `size`, `font`, and
      `framebuffer` (the memory at the boot-reported address). */
  class Renderer {
    var backbuffer: array<bv32>
    var front: array<bv32>
    var pitch: u32
    var size: u32
    var font: seq<bv8>

    ghost predicate Valid()
      reads this
    {
      backbuffer.Length == BackWords && front != backbuffer && |font| >= FontBytes
    }

    /** vbe_init over the zero-initialised static back buffer. The font is
        the blob the filesystem returns for "DEFAULT FNT". */
    constructor Init(info: BootInfo, framebuffer: array<bv32>, font: seq<bv8>)
      requires |font| >= FontBytes
      ensures Valid() && fresh(backbuffer) && front == framebuffer && this.font == font
      ensures pitch == PitchPixels(info) && size == SizeBytes(info)
      ensures forall k :: 0 <= k < BackWords ==> backbuffer[k] == 0
    {
      backbuffer := new bv32[BackWords](_ => 0);
      front := framebuffer;
      pitch := info.framebufferPitch / 4;
      size := (info.framebufferPitch * info.framebufferHeight) % 0x1_0000_0000;
      this.font := font;
    }

    /** vbe_swap_buffers: all 800x600 words, whatever `size` says. */
    method SwapBuffers()
      requires Valid() && front.Length >= BackWords
      modifies front
      ensures front[..] == Shown(old(front[..]), backbuffer[..])
    {
      forall k | 0 <= k < BackWords {
        front[k] := backbuffer[k];
      }
      assert front[..] == backbuffer[..] + old(front[..])[BackWords..];
    }

    /** vbe_putpixel */
    method PutPixel(x: u16, y: u16, color: bv32)
      requires Valid() && Offset(x, y, pitch) < BackWords
      modifies backbuffer
      ensures backbuffer[..] == old(backbuffer[..])[Offset(x, y, pitch) := color]
    {
      backbuffer[y * pitch + x] := color;
    }

    /** vbe_fill: the first size / 4 words. */
    method Fill(color: bv32)
      requires Valid() && size / 4 <= BackWords
      modifies backbuffer
      ensures backbuffer[..] == Filled(old(backbuffer[..]), size / 4, color)
    {
      var i := 0;
      while i < size / 4
        invariant 0 <= i <= size / 4
        invariant forall k :: 0 <= k < BackWords ==> backbuffer[k] == if k < i then color else old(backbuffer[k])
      {
        backbuffer[i] := color;
        i := i + 1;
      }
    }

    /** The double `vbe_putpixel` loop that `vbe_rect` runs over its
        rectangle and `vbe_putchar` over each scale-by-scale block: columns
        outside, rows inside. */
    method FillBlock(x: nat, y: nat, w: nat, h: nat, color: bv32)
      requires Valid() && BlockFits(x, y, w, h, pitch)
      modifies backbuffer
      ensures backbuffer[..] == Painted(old(backbuffer[..]), x, y, w, h, pitch, color)
    {
      var i := x;
      while i < x + w
        invariant x <= i <= x + w
        invariant backbuffer[..] == Painted(old(backbuffer[..]), x, y, i - x, h, pitch, color)
      {
        ghost var before := backbuffer[..];
        var j := y;
        while j < y + h
          invariant y <= j <= y + h
          invariant backbuffer[..] == Painted(before, i, y, 1, j - y, pitch, color)
        {
          OffsetMonotone(i, j, x + w - 1, y + h - 1, pitch);
          PaintedTaller(before, i, y, j - y, pitch, color);
          PutPixel(i, j, color);
          j := j + 1;
        }
        PaintedWider(old(backbuffer[..]), x, y, i - x, h, pitch, color);
        i := i + 1;
      }
    }

    /** vbe_rect. Its 16-bit loop counters stop only while x + width and
        y + height stay below 2^16. */
    method Rect(x: u16, y: u16, width: u16, height: u16, color: bv32)
      requires Valid()
      requires x + width <= 0xFFFF && (width == 0 || y + height <= 0xFFFF)
      requires BlockFits(x, y, width, height, pitch)
      modifies backbuffer
      ensures backbuffer[..] == Painted(old(backbuffer[..]), x, y, width, height, pitch, color)
    {
      FillBlock(x, y, width, height, color);
    }

    /** vbe_putchar */
    method PutChar(c: u8, x: u32, y: u32, color: bv32, scale: u32)
      requires Valid() && (c == Newline || GlyphFits(x, y, scale, pitch))
      modifies backbuffer
      ensures backbuffer[..] == DrawChar(old(backbuffer[..]), font, pitch, c, x, y, color, scale)
    {
      if c == Newline {
        return;
      }
      ghost var b0 := backbuffer[..];
      for cy := 0 to GlyphRows
        invariant backbuffer[..] == GlyphPrefix(b0, font, pitch, c, x, y, color, scale, GlyphCols * cy)
      {
        var row := font[c * 16 + cy];
        for cx := 0 to GlyphCols
          invariant backbuffer[..] == GlyphPrefix(b0, font, pitch, c, x, y, color, scale, GlyphCols * cy + cx)
        {
          DrawCell(c, x, y, color, scale, cx, cy, row, b0);
        }
      }
    }

    /** The body of vbe_putchar's cell loop: the block of the cell in column
        cx of row cy is painted when bit (7 - cx) of the glyph row is set. */
    method DrawCell(c: u8, x: u32, y: u32, color: bv32, scale: u32, cx: nat, cy: nat, row: bv8, ghost b0: seq<bv32>)
      requires Valid() && GlyphFits(x, y, scale, pitch) && cx < GlyphCols && cy < GlyphRows
      requires row == GlyphRow(font, c, cy)
      requires backbuffer[..] == GlyphPrefix(b0, font, pitch, c, x, y, color, scale, GlyphCols * cy + cx)
      modifies backbuffer
      ensures backbuffer[..] == GlyphPrefix(b0, font, pitch, c, x, y, color, scale, GlyphCols * cy + cx + 1)
    {
      GlyphPrefixStep(b0, font, pitch, c, x, y, color, scale, cx, cy);
      if row & Mask[7 - cx] != 0 {
        GlyphBlockFits(x, y, scale, pitch, cx, cy);
        FillBlock(x + cx * scale, y + cy * scale, scale, scale, color);
      }
    }

    /** vbe_write_string. Its 16-bit counter stops only for strings shorter
        than 2^16 bytes. */
    method WriteString(str: seq<u8>, x: u32, y: u32, color: bv32, scale: u32)
      requires Valid() && 0 in str && Strlen(str) < 0x1_0000
      requires StringFits(str[..Strlen(str)], x, y, scale, pitch)
      modifies backbuffer
      ensures backbuffer[..] == DrawString(old(backbuffer[..]), font, pitch, str[..Strlen(str)], x, y, color, scale)
    {
      ghost var n := Strlen(str);
      var i := 0;
      while i < Strlen(str)
        invariant 0 <= i <= n
        invariant DrawString(backbuffer[..], font, pitch, str[i..n], Wrap32(x + GlyphCols * scale * i), y, color, scale)
               == DrawString(old(backbuffer[..]), font, pitch, str[..n], x, y, color, scale)
      {
        ghost var rest := str[i..n];
        assert rest[0] == str[i] && rest[1..] == str[i + 1..n] && str[..n][i] == str[i];
        GlyphOffset(i, scale);
        AdvanceLast(x, GlyphCols * scale, i);
        PutChar(str[i], Wrap32(x + i * 8 * scale), y, color, scale);
        i := i + 1;
      }
    }
  }
}
