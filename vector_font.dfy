/** The font-texture builder of the Linux vector font (cuivectorfont.cpp): texture sizing,
    the glyph layout that fills the font table and character map, and the copy of a
    glyph's 8-bit coverage bitmap into the alpha nibble of an ARGB4444 texture. */
module VectorFont {
  import opened Common

  /** Spacing between characters in the font map, in texels. */
  const CharSpacing: int := 2

  // ---------------------------------------------------------------------------
  // Powers of two
  // ---------------------------------------------------------------------------

  predicate IsPowerOfTwo(n: int)
    decreases n
  {
    n == 1 || (n >= 2 && n % 2 == 0 && IsPowerOfTwo(n / 2))
  }

  /** The first of p, 2p, 4p, ... that is at least `value`. */
  function PowerOfTwoFrom(value: int, p: int): int
    requires p >= 1
    decreases if value > p then value - p else 0
  {
    if p >= value then p else PowerOfTwoFrom(value, 2 * p)
  }

  /** The texture dimension chosen for a wanted size: doubling from 32. */
  function TextureDimension(value: int): int
  {
    PowerOfTwoFrom(value, 32)
  }

  lemma LiteralPowersOfTwo()
    ensures IsPowerOfTwo(32) && IsPowerOfTwo(0x4000_0000)
  {
    assert IsPowerOfTwo(0x1);
    assert IsPowerOfTwo(0x2);
    assert IsPowerOfTwo(0x4);
    assert IsPowerOfTwo(0x8);
    assert IsPowerOfTwo(0x10);
    assert IsPowerOfTwo(0x20);
    assert IsPowerOfTwo(0x40);
    assert IsPowerOfTwo(0x80);
    assert IsPowerOfTwo(0x100);
    assert IsPowerOfTwo(0x200);
    assert IsPowerOfTwo(0x400);
    assert IsPowerOfTwo(0x800);
    assert IsPowerOfTwo(0x1000);
    assert IsPowerOfTwo(0x2000);
    assert IsPowerOfTwo(0x4000);
    assert IsPowerOfTwo(0x8000);
    assert IsPowerOfTwo(0x10000);
    assert IsPowerOfTwo(0x20000);
    assert IsPowerOfTwo(0x40000);
    assert IsPowerOfTwo(0x80000);
    assert IsPowerOfTwo(0x100000);
    assert IsPowerOfTwo(0x200000);
    assert IsPowerOfTwo(0x400000);
    assert IsPowerOfTwo(0x800000);
    assert IsPowerOfTwo(0x1000000);
    assert IsPowerOfTwo(0x2000000);
    assert IsPowerOfTwo(0x4000000);
    assert IsPowerOfTwo(0x8000000);
    assert IsPowerOfTwo(0x10000000);
    assert IsPowerOfTwo(0x20000000);
    assert IsPowerOfTwo(0x40000000);
  }

  /** A power of two below another is at most half of it. */
  lemma {:induction false} PowerOfTwoBelow(q: int, r: int)
    requires IsPowerOfTwo(q) && IsPowerOfTwo(r) && q < r
    ensures r >= 2 && q <= r / 2
    decreases r
  {
    if q != 1 {
      PowerOfTwoBelow(q / 2, r / 2);
    }
  }

  /** Doubling from a power of two ends at the least power of two, no smaller than the start,
      that reaches the wanted size. */
  lemma {:induction false} PowerOfTwoFromIsLeast(value: int, p: int)
    requires p >= 1 && IsPowerOfTwo(p)
    ensures IsPowerOfTwo(PowerOfTwoFrom(value, p))
    ensures PowerOfTwoFrom(value, p) >= p && PowerOfTwoFrom(value, p) >= value
    ensures forall q :: IsPowerOfTwo(q) && q >= p && q >= value ==> PowerOfTwoFrom(value, p) <= q
    decreases if value > p then value - p else 0
  {
    if p < value {
      assert IsPowerOfTwo(2 * p) by { assert (2 * p) / 2 == p; }
      PowerOfTwoFromIsLeast(value, 2 * p);
      var r := PowerOfTwoFrom(value, p);
      forall q | IsPowerOfTwo(q) && q >= p && q >= value
        ensures r <= q
      {
        if q < 2 * p {
          PowerOfTwoBelow(p, q);
          assert false;
        }
      }
    }
  }

  /** GetPowerOfTwo: doubles 32 until it reaches `value`. The 32-bit `int` does not overflow
      as long as `value` is at most 2^30. */
  method GetPowerOfTwo(value: int) returns (p: int)
    requires value <= 0x4000_0000
    ensures p == TextureDimension(value)
    ensures IsPowerOfTwo(p) && 32 <= p <= 0x4000_0000 && p >= value
    ensures forall q :: IsPowerOfTwo(q) && q >= 32 && q >= value ==> p <= q
  {
    p := 32;
    LiteralPowersOfTwo();
    PowerOfTwoFromIsLeast(value, 32);
    while p < value
      invariant 32 <= p <= 0x4000_0000 && IsPowerOfTwo(p)
      invariant PowerOfTwoFrom(value, p) == TextureDimension(value)
      decreases value - p
    {
      assert IsPowerOfTwo(2 * p) by { assert (2 * p) / 2 == p; }
      PowerOfTwoBelow(p, 0x4000_0000);
      p := 2 * p;
    }
  }

  // ---------------------------------------------------------------------------
  // MulDiv and the alpha nibble
  // ---------------------------------------------------------------------------

  predicate IsInt32(x: int) { -0x8000_0000 <= x < 0x8000_0000 }

  /** MulDiv (cuivectorfont.cpp): number * numerator / denominator in 64-bit arithmetic, rounded
      by adding half the denominator (an arithmetic shift), with C's truncating division, then
      narrowed back to a 32-bit `int`. For a non-negative product and a positive denominator
      the result is the quotient rounded to the nearest integer, halves rounded up. */
  function MulDiv(number: int, numerator: int, denominator: int): (r: int)
    requires IsInt32(number) && IsInt32(numerator) && IsInt32(denominator) && denominator != 0
    ensures IsInt32(r)
    ensures number * numerator >= 0 && denominator > 0 && number * numerator + denominator / 2 < 0x8000_0000 ==>
              r * denominator <= number * numerator + denominator / 2 < (r + 1) * denominator
  {
    var a := number * numerator + denominator / 2;
    var q := TruncDiv(a, denominator);
    assert a >= 0 && denominator > 0 ==> q * denominator <= a < (q + 1) * denominator && 0 <= q <= a by {
      if a >= 0 && denominator > 0 {
        DivBounds(a, denominator);
      }
    }
    ToS32(q)
  }

  lemma DivBounds(a: nat, d: nat)
    requires d > 0
    ensures (a / d) * d <= a < (a / d + 1) * d
    ensures a / d <= a
  {
    var q, m := a / d, a % d;
    assert a == d * q + m;
    MulMono(q, 1, d);
  }

  /** The 4-bit alpha of an 8-bit coverage value, coverage * 15 / 255 rounded to nearest. */
  function Alpha(coverage: Byte): (a: int)
    ensures 0 <= a < 16
  {
    (coverage * 15 + 127) / 255
  }

  /** The copy computes the alpha as MulDiv(coverage, 15, 255). */
  lemma AlphaIsMulDiv(coverage: Byte)
    ensures MulDiv(coverage, 15, 255) == Alpha(coverage)
  {
    var r := MulDiv(coverage, 15, 255);
    assert r * 255 <= coverage * 15 + 127 < (r + 1) * 255;
  }

  /** The alpha nibble MulDiv(coverage, 15, 255) is 0 for no coverage, 15 for full coverage,
      within 0..15, and never decreases as the coverage grows. */
  lemma AlphaRange(b: Byte, c: Byte)
    ensures 0 <= MulDiv(b, 15, 255) <= 15
    ensures MulDiv(0, 15, 255) == 0 && MulDiv(255, 15, 255) == 15
    ensures b <= c ==> MulDiv(b, 15, 255) <= MulDiv(c, 15, 255)
  {
    AlphaIsMulDiv(b);
    AlphaIsMulDiv(c);
    AlphaIsMulDiv(0);
    AlphaIsMulDiv(255);
  }

  /** A 16-bit ARGB4444 texel: alpha in bits 12..15 (the value / 0x1000), colour in bits
      0..11 (the value % 0x1000). */
  type Texel = t: int | 0 <= t < 0x1_0000

  /** (texel % 0x1000) | ((alpha & 0x0F) << 12): the alpha nibble replaced, the colour bits kept. */
  function SetAlpha(texel: Texel, alpha: int): (t: Texel)
    requires 0 <= alpha < 16
    ensures t % 0x1000 == texel % 0x1000
    ensures t / 0x1000 == alpha
  {
    texel % 0x1000 + (alpha % 0x10) * 0x1000
  }

  // ---------------------------------------------------------------------------
  // CopyGlyphBitmapToPixelData
  // ---------------------------------------------------------------------------

  lemma MulStep(a: int, b: int)
    ensures a * (b + 1) == a * b + a
  {
  }

  lemma MulPred(a: int, b: int)
    ensures a * b == a * (b - 1) + a
  {
  }

  lemma MulMono(a: nat, b: nat, c: nat)
    requires b <= c
    ensures a * b <= a * c
  {
  }

  /** The glyph bitmap (w0 x h0 bytes, row-major) and every destination texel
      off + w1 * i + j lie inside their buffers. */
  predicate CopyFits(texels: nat, bitmapLen: nat, off: nat, w0: nat, h0: nat, w1: nat)
  {
    w0 * h0 <= bitmapLen && (w0 == 0 || h0 == 0 || off + w1 * (h0 - 1) + w0 <= texels)
  }

  /** `rows` rows of w0 pixels, read from bitmap offsets src, src + w0, ... and written to
      texel offsets dst, dst + w1, ..., lie inside their buffers. */
  predicate RowsFit(bitmapLen: nat, texels: nat, src: nat, dst: nat, w0: nat, w1: nat, rows: nat)
    decreases rows
  {
    rows == 0 ||
    (src + w0 <= bitmapLen && (w0 == 0 || dst + w0 <= texels) &&
     RowsFit(bitmapLen, texels, src + w0, dst + w1, w0, w1, rows - 1))
  }

  lemma {:induction false} FitsRows(texels: nat, bitmapLen: nat, off: nat, w0: nat, h0: nat, w1: nat, k: nat)
    requires CopyFits(texels, bitmapLen, off, w0, h0, w1) && k <= h0
    ensures RowsFit(bitmapLen, texels, w0 * k, off + w1 * k, w0, w1, h0 - k)
    decreases h0 - k
  {
    if k < h0 {
      MulMono(w0, k + 1, h0);
      MulMono(w1, k, h0 - 1);
      assert w0 * (k + 1) == w0 * k + w0;
      assert w1 * (k + 1) == w1 * k + w1;
      FitsRows(texels, bitmapLen, off, w0, h0, w1, k + 1);
    }
  }

  /** Texels after the first m pixels of one glyph row, read from bitmap[src..] and written
      to texels [dst..], have been copied. */
  function CopyRow(px: seq<Texel>, bitmap: seq<Byte>, src: nat, dst: nat, m: nat): (r: seq<Texel>)
    requires src + m <= |bitmap| && (m == 0 || dst + m <= |px|)
    ensures |r| == |px|
    decreases m
  {
    if m == 0 then px
    else
      var q := CopyRow(px, bitmap, src, dst, m - 1);
      q[dst + m - 1 := SetAlpha(q[dst + m - 1], Alpha(bitmap[src + m - 1]))]
  }

  /** Texels after `rows` glyph rows, the first read from bitmap[src..] and written to
      texels [dst..], each next one w0 further in the bitmap and w1 further in the texture. */
  function CopyRows(px: seq<Texel>, bitmap: seq<Byte>, src: nat, dst: nat, w0: nat, w1: nat, rows: nat): (r: seq<Texel>)
    requires RowsFit(|bitmap|, |px|, src, dst, w0, w1, rows)
    ensures |r| == |px|
    decreases rows
  {
    if rows == 0 then px
    else CopyRows(CopyRow(px, bitmap, src, dst, w0), bitmap, src + w0, dst + w1, w0, w1, rows - 1)
  }

  /** CopyGlyphBitmapToPixelData: row by row, pixel by pixel, replaces the alpha nibble of the
      texel at off + w1 * i + j by the alpha of bitmap[w0 * i + j]. Offsets are in 16-bit
      texels (the source adds byte offsets twice as large); the row offsets w0 * i and
      off + w1 * i are kept as running sums. */
  method CopyGlyphBitmapToPixelData(bitmap: seq<Byte>, pixels: array<Texel>, off: nat, w0: nat, h0: nat, w1: nat)
    requires RowsFit(|bitmap|, pixels.Length, 0, off, w0, w1, h0)
    modifies pixels
    ensures pixels[..] == CopyRows(old(pixels[..]), bitmap, 0, off, w0, w1, h0)
  {
    ghost var start := pixels[..];
    var i: nat, src: nat, dst: nat := 0, 0, off;
    while i < h0
      invariant 0 <= i <= h0
      invariant RowsFit(|bitmap|, pixels.Length, src, dst, w0, w1, h0 - i)
      invariant CopyRows(pixels[..], bitmap, src, dst, w0, w1, h0 - i) == CopyRows(start, bitmap, 0, off, w0, w1, h0)
    {
      CopyGlyphRow(bitmap, pixels, src, dst, w0);
      i, src, dst := i + 1, src + w0, dst + w1;
    }
  }

  /** The inner loop of CopyGlyphBitmapToPixelData: one glyph row of w0 pixels. */
  method CopyGlyphRow(bitmap: seq<Byte>, pixels: array<Texel>, src: nat, dst: nat, w0: nat)
    requires src + w0 <= |bitmap| && (w0 == 0 || dst + w0 <= pixels.Length)
    modifies pixels
    ensures pixels[..] == CopyRow(old(pixels[..]), bitmap, src, dst, w0)
  {
    var j := 0;
    while j < w0
      invariant 0 <= j <= w0
      invariant pixels[..] == CopyRow(old(pixels[..]), bitmap, src, dst, j)
    {
      pixels[dst + j] := SetAlpha(pixels[dst + j], Alpha(bitmap[src + j]));
      j := j + 1;
    }
  }

  lemma {:induction false} RowKeepsColour(px: seq<Texel>, bitmap: seq<Byte>, src: nat, dst: nat, m: nat, t: nat)
    requires src + m <= |bitmap| && (m == 0 || dst + m <= |px|) && t < |px|
    ensures CopyRow(px, bitmap, src, dst, m)[t] % 0x1000 == px[t] % 0x1000
    decreases m
  {
    if m > 0 {
      RowKeepsColour(px, bitmap, src, dst, m - 1, t);
    }
  }

  /** Copying a glyph never changes the colour bits of any texel. */
  lemma {:induction false} CopyKeepsColour(px: seq<Texel>, bitmap: seq<Byte>, src: nat, dst: nat, w0: nat, w1: nat, rows: nat, t: nat)
    requires RowsFit(|bitmap|, |px|, src, dst, w0, w1, rows) && t < |px|
    ensures CopyRows(px, bitmap, src, dst, w0, w1, rows)[t] % 0x1000 == px[t] % 0x1000
    decreases rows
  {
    if rows > 0 {
      RowKeepsColour(px, bitmap, src, dst, w0, t);
      CopyKeepsColour(CopyRow(px, bitmap, src, dst, w0), bitmap, src + w0, dst + w1, w0, w1, rows - 1, t);
    }
  }

  /** A row copy leaves every texel outside [dst, dst + m) alone. */
  lemma {:induction false} RowKeepsOthers(px: seq<Texel>, bitmap: seq<Byte>, src: nat, dst: nat, m: nat, t: nat)
    requires src + m <= |bitmap| && (m == 0 || dst + m <= |px|) && t < |px|
    requires t < dst || t >= dst + m
    ensures CopyRow(px, bitmap, src, dst, m)[t] == px[t]
    decreases m
  {
    if m > 0 {
      RowKeepsOthers(px, bitmap, src, dst, m - 1, t);
    }
  }

  /** A row copy sets the alpha of texel dst + j from bitmap[src + j]. */
  lemma {:induction false} RowSetsAlpha(px: seq<Texel>, bitmap: seq<Byte>, src: nat, dst: nat, m: nat, j: nat)
    requires src + m <= |bitmap| && dst + m <= |px| && j < m
    ensures CopyRow(px, bitmap, src, dst, m)[dst + j] / 0x1000 == Alpha(bitmap[src + j])
    decreases m
  {
    if j < m - 1 {
      RowSetsAlpha(px, bitmap, src, dst, m - 1, j);
    }
  }

  /** No row writes before its first destination texel. */
  lemma {:induction false} RowsKeepBefore(px: seq<Texel>, bitmap: seq<Byte>, src: nat, dst: nat, w0: nat, w1: nat, rows: nat, t: nat)
    requires RowsFit(|bitmap|, |px|, src, dst, w0, w1, rows) && t < |px| && t < dst
    ensures CopyRows(px, bitmap, src, dst, w0, w1, rows)[t] == px[t]
    decreases rows
  {
    if rows > 0 {
      RowKeepsOthers(px, bitmap, src, dst, w0, t);
      RowsKeepBefore(CopyRow(px, bitmap, src, dst, w0), bitmap, src + w0, dst + w1, w0, w1, rows - 1, t);
    }
  }

  /** The pixel at row i, column j of the glyph is written to the texel of the same row and
      column in the texture, as long as glyph rows are no wider than texture rows. */
  lemma {:induction false} CopyPlacesAlpha(px: seq<Texel>, bitmap: seq<Byte>, src: nat, dst: nat, w0: nat, w1: nat, rows: nat, i: nat, j: nat)
    requires RowsFit(|bitmap|, |px|, src, dst, w0, w1, rows) && w0 <= w1 && i < rows && j < w0
    ensures src + w0 * i + j < |bitmap| && dst + w1 * i + j < |px|
    ensures CopyRows(px, bitmap, src, dst, w0, w1, rows)[dst + w1 * i + j] / 0x1000 == Alpha(bitmap[src + w0 * i + j])
    decreases i
  {
    var first := CopyRow(px, bitmap, src, dst, w0);
    if i == 0 {
      RowSetsAlpha(px, bitmap, src, dst, w0, j);
      RowsKeepBefore(first, bitmap, src + w0, dst + w1, w0, w1, rows - 1, dst + j);
    } else {
      CopyPlacesAlpha(first, bitmap, src + w0, dst + w1, w0, w1, rows - 1, i - 1, j);
      assert w0 * (i - 1) + w0 == w0 * i && w1 * (i - 1) + w1 == w1 * i;
    }
  }

  /** Copying a glyph leaves untouched every texel from the row after its last on. */
  lemma {:induction false} RowsKeepAfter(px: seq<Texel>, bitmap: seq<Byte>, src: nat, dst: nat, w0: nat, w1: nat, rows: nat, t: nat)
    requires RowsFit(|bitmap|, |px|, src, dst, w0, w1, rows) && w0 <= w1 && t < |px|
    requires t >= dst + w1 * rows
    ensures CopyRows(px, bitmap, src, dst, w0, w1, rows)[t] == px[t]
    decreases rows
  {
    if rows > 0 {
      MulPred(w1, rows);
      RowKeepsOthers(px, bitmap, src, dst, w0, t);
      RowsKeepAfter(CopyRow(px, bitmap, src, dst, w0), bitmap, src + w0, dst + w1, w0, w1, rows - 1, t);
    }
  }

  /** Copying a glyph leaves untouched column `col` of its texture row `row` when that column is
      beyond the glyph's width. */
  lemma {:induction false} RowsKeepBeyond(px: seq<Texel>, bitmap: seq<Byte>, src: nat, dst: nat, w0: nat, w1: nat, rows: nat,
                                          t: nat, row: nat, col: nat)
    requires RowsFit(|bitmap|, |px|, src, dst, w0, w1, rows) && w0 <= w1 && t < |px|
    requires w0 <= col < w1 && t == dst + w1 * row + col
    ensures CopyRows(px, bitmap, src, dst, w0, w1, rows)[t] == px[t]
    decreases rows
  {
    if rows > 0 {
      var next := CopyRow(px, bitmap, src, dst, w0);
      if row == 0 {
        assert t == dst + col;
        RowKeepsOthers(px, bitmap, src, dst, w0, t);
        RowsKeepBefore(next, bitmap, src + w0, dst + w1, w0, w1, rows - 1, t);
      } else {
        MulPred(w1, row);
        MulMono(w1, 0, row - 1);
        RowKeepsOthers(px, bitmap, src, dst, w0, t);
        RowsKeepBeyond(next, bitmap, src + w0, dst + w1, w0, w1, rows - 1, t, row - 1, col);
      }
    }
  }

  /** Copying a glyph leaves untouched every texel before its first row, from the row after
      its last, and at column `col` of texture row `row` when that column is beyond the glyph's
      width. */
  lemma CopyKeepsOutside(px: seq<Texel>, bitmap: seq<Byte>, src: nat, dst: nat, w0: nat, w1: nat, rows: nat,
                         t: nat, row: nat, col: nat)
    requires RowsFit(|bitmap|, |px|, src, dst, w0, w1, rows) && w0 <= w1 && t < |px|
    requires t < dst || t >= dst + w1 * rows || (w0 <= col < w1 && t == dst + w1 * row + col)
    ensures CopyRows(px, bitmap, src, dst, w0, w1, rows)[t] == px[t]
  {
    if t < dst {
      RowsKeepBefore(px, bitmap, src, dst, w0, w1, rows, t);
    } else if t >= dst + w1 * rows {
      RowsKeepAfter(px, bitmap, src, dst, w0, w1, rows, t);
    } else {
      RowsKeepBeyond(px, bitmap, src, dst, w0, w1, rows, t, row, col);
    }
  }

  // ---------------------------------------------------------------------------
  // Pixel data
  // ---------------------------------------------------------------------------

  /** Bytes per texture row of 16-bit texels, rounded up to a multiple of four:
      ((16 * cx + 7) / 8 + 3) & ~3. */
  function PixelDataPitch(cx: nat): (pitch: nat)
    ensures pitch % 4 == 0 && pitch % 2 == 0
    ensures 2 * cx <= pitch < 2 * cx + 4
  {
    var bits := 16 * cx + 7;
    assert bits / 8 == 2 * cx;
    ClearLowBits(bits / 8 + 3)
  }

  /** `b & ~3` for a non-negative b: b rounded down to a multiple of four. */
  function ClearLowBits(b: nat): (r: nat)
    ensures r % 4 == 0 && r <= b < r + 4
  {
    var q := b / 4;
    assert (4 * q) % 4 == 0;
    4 * q
  }

  /** The pixel data is allocated at pitch * height bytes and every 16-bit texel is set to
      0x0FFF: white, fully transparent. */
  method NewPixelData(cx: nat, cy: nat) returns (pixels: array<Texel>)
    ensures fresh(pixels)
    ensures 2 * pixels.Length == PixelDataPitch(cx) * cy
    ensures forall t :: 0 <= t < pixels.Length ==> pixels[t] == 0x0FFF
  {
    var pitch := PixelDataPitch(cx);
    var count := TexelCount(pitch, cy);
    pixels := NewTransparentTexels(count);
  }

  /** The number of 16-bit texels in `cy` rows of `pitch` bytes. */
  function TexelCount(pitch: nat, cy: nat): (n: nat)
    requires pitch % 2 == 0
    ensures 2 * n == pitch * cy
  {
    var h := pitch / 2;
    assert pitch * cy == 2 * (h * cy) by {
      assert pitch == 2 * h;
    }
    h * cy
  }

  method NewTransparentTexels(len: nat) returns (pixels: array<Texel>)
    ensures fresh(pixels) && pixels.Length == len
    ensures forall t :: 0 <= t < pixels.Length ==> pixels[t] == 0x0FFF
  {
    pixels := new Texel[len];
    var t := 0;
    while t < pixels.Length
      invariant 0 <= t <= pixels.Length
      invariant forall u :: 0 <= u < t ==> pixels[u] == 0x0FFF
    {
      pixels[t] := 0x0FFF;
      t := t + 1;
    }
  }

  // ---------------------------------------------------------------------------
  // Glyph layout
  // ---------------------------------------------------------------------------

  datatype Offset = Offset(x: int, y: int)

  /** Where a glyph of width `w` goes from the running offset `at`: if its right side,
      spacing included, reaches the texture width, at the start of the next row. */
  function PlaceGlyph(at: Offset, w: nat, texW: int, rowH: int): Offset
  {
    if at.x + w + CharSpacing >= texW then Offset(0, at.y + rowH) else at
  }

  /** The running offset after the glyphs of widths `ws` have been laid out. */
  function OffsetAfter(ws: seq<nat>, texW: int, rowH: int): Offset
    decreases |ws|
  {
    if ws == [] then Offset(0, 0)
    else
      var w := ws[|ws| - 1];
      var at := PlaceGlyph(OffsetAfter(ws[..|ws| - 1], texW, rowH), w, texW, rowH);
      Offset(at.x + w + CharSpacing, at.y)
  }

  /** The texture offset of glyph g. */
  function GlyphOffset(ws: seq<nat>, texW: int, rowH: int, g: nat): Offset
    requires g < |ws|
  {
    PlaceGlyph(OffsetAfter(ws[..g], texW, rowH), ws[g], texW, rowH)
  }

  /** Number of row breaks the layout of `ws` takes. */
  function LayoutBreaks(ws: seq<nat>, texW: int): nat
    decreases |ws|
  {
    if ws == [] then 0
    else
      var w := ws[|ws| - 1];
      var at := OffsetAfter(ws[..|ws| - 1], texW, 0);
      LayoutBreaks(ws[..|ws| - 1], texW) + (if at.x + w + CharSpacing >= texW then 1 else 0)
  }

  /** The x coordinates of a layout do not depend on the row height. */
  lemma {:induction false} LayoutXIgnoresRowHeight(ws: seq<nat>, texW: int, rowH: int)
    ensures OffsetAfter(ws, texW, rowH).x == OffsetAfter(ws, texW, 0).x
    decreases |ws|
  {
    if ws != [] {
      LayoutXIgnoresRowHeight(ws[..|ws| - 1], texW, rowH);
    }
  }

  /** Every row of the layout is rowH below the previous one: the running y offset is the
      row height times the number of rows started. */
  lemma {:induction false} LayoutRows(ws: seq<nat>, texW: int, rowH: int)
    ensures OffsetAfter(ws, texW, rowH).y == rowH * LayoutBreaks(ws, texW)
    decreases |ws|
  {
    if ws != [] {
      var init := ws[..|ws| - 1];
      LayoutRows(init, texW, rowH);
      LayoutXIgnoresRowHeight(init, texW, rowH);
    }
  }

  /** A glyph either starts a row or ends, spacing included, short of the texture width. */
  lemma GlyphInsideRow(ws: seq<nat>, texW: int, rowH: int, g: nat)
    requires rowH >= 0 && g < |ws|
    ensures GlyphOffset(ws, texW, rowH, g).x == 0 || GlyphOffset(ws, texW, rowH, g).x + ws[g] + CharSpacing < texW
    ensures GlyphOffset(ws, texW, rowH, g).x >= 0
  {
    OffsetNonNegative(ws[..g], texW, rowH);
  }

  lemma {:induction false} OffsetNonNegative(ws: seq<nat>, texW: int, rowH: int)
    requires rowH >= 0
    ensures OffsetAfter(ws, texW, rowH).x >= 0 && OffsetAfter(ws, texW, rowH).y >= 0
    decreases |ws|
  {
    if ws != [] {
      OffsetNonNegative(ws[..|ws| - 1], texW, rowH);
    }
  }

  /** Glyphs are laid out in reading order without overlapping: a later glyph is on a later
      row, or on the same row to the right of the earlier glyph and its spacing. */
  lemma {:induction false} GlyphsDoNotOverlap(ws: seq<nat>, texW: int, rowH: int, g: nat, h: nat)
    requires rowH > 0 && g < h < |ws|
    ensures GlyphOffset(ws, texW, rowH, g).y < GlyphOffset(ws, texW, rowH, h).y ||
            (GlyphOffset(ws, texW, rowH, g).y == GlyphOffset(ws, texW, rowH, h).y &&
             GlyphOffset(ws, texW, rowH, g).x + ws[g] + CharSpacing <= GlyphOffset(ws, texW, rowH, h).x)
    decreases h - g
  {
    var og := GlyphOffset(ws, texW, rowH, g);
    assert ws[..g + 1][..g] == ws[..g];
    var after := OffsetAfter(ws[..g + 1], texW, rowH);
    assert after == Offset(og.x + ws[g] + CharSpacing, og.y);
    OffsetNonNegative(ws[..g + 1], texW, rowH);
    if h == g + 1 {
      assert GlyphOffset(ws, texW, rowH, h) == PlaceGlyph(after, ws[h], texW, rowH);
    } else {
      GlyphsDoNotOverlap(ws, texW, rowH, g + 1, h);
      var o1 := GlyphOffset(ws, texW, rowH, g + 1);
      assert o1 == PlaceGlyph(after, ws[g + 1], texW, rowH);
    }
  }

  /** Font map entry for character c after the layout of `chars`: the index, narrowed to
      eight bits, of the last glyph for c, or the entry it had before. */
  function MapEntry(chars: seq<Byte>, c: Byte, before: Byte): (e: Byte)
    decreases |chars|
  {
    if chars == [] then before
    else if chars[|chars| - 1] == c then (|chars| - 1) % 0x100
    else MapEntry(chars[..|chars| - 1], c, before)
  }

  /** The map sends a character to the last glyph drawn for it. */
  lemma {:induction false} MapEntryIsLastGlyph(chars: seq<Byte>, c: Byte, before: Byte)
    ensures c !in chars ==> MapEntry(chars, c, before) == before
    ensures forall g :: 0 <= g < |chars| && chars[g] == c && (forall h :: g < h < |chars| ==> chars[h] != c) ==>
              MapEntry(chars, c, before) == g % 0x100
    decreases |chars|
  {
    if chars != [] {
      var init := chars[..|chars| - 1];
      MapEntryIsLastGlyph(init, c, before);
      forall g | 0 <= g < |chars| && chars[g] == c && (forall h :: g < h < |chars| ==> chars[h] != c)
        ensures MapEntry(chars, c, before) == g % 0x100
      {
        if g < |chars| - 1 {
          assert chars[|chars| - 1] != c;
          assert init[g] == c;
        }
      }
      if c !in chars {
        assert c !in init;
      }
    }
  }

  /** Byte offset into the pixel data of the top of glyph g's bitmap: the row offset is computed
      in unsigned 32-bit arithmetic, stored in an `int`, and reset to 0 when it is negative or
      not below the pixel data size. */
  function GlyphRowByteOffset(y: int, ascent: int, originY: int, texW: nat, pixelDataSize: int): (b: int)
    ensures 0 <= b && (b == 0 || b < pixelDataSize)
  {
    var v := ToS32(ToU32((y + ascent - originY) * texW * 2));
    if v >= pixelDataSize || v < 0 then 0 else v
  }

  /** Font table entry k after the glyph loop: entries 3g, 3g+1 and 3g+2 hold glyph g's
      width with spacing, x offset and y offset, each narrowed to uint16. */
  function TableEntry(widths: seq<nat>, texW: int, rowH: int, k: nat): (e: int)
    requires k < 3 * |widths|
    ensures 0 <= e < TwoTo16
  {
    var g := k / 3;
    var at := GlyphOffset(widths, texW, rowH, g);
    if k % 3 == 0 then ToU16(widths[g] + CharSpacing)
    else if k % 3 == 1 then ToU16(at.x)
    else ToU16(at.y)
  }

  /** Byte offset in the pixel data where glyph g's bitmap is copied. */
  function GlyphDest(widths: seq<nat>, originY: seq<int>, ascent: int, texW: nat, rowH: int, pixelDataSize: int, g: nat): int
    requires g < |widths| == |originY|
  {
    var at := GlyphOffset(widths, texW, rowH, g);
    GlyphRowByteOffset(at.y, ascent, originY[g], texW, pixelDataSize) + 2 * ToU16(at.x)
  }

  /** Font table entries 3g, 3g+1 and 3g+2 for glyph g placed at `at`. */
  method RecordGlyph(table: array<int>, widths: seq<nat>, texW: int, rowH: int, g: nat, at: Offset)
    requires g < |widths| && 3 * |widths| <= table.Length
    requires at == GlyphOffset(widths, texW, rowH, g)
    requires forall k :: 0 <= k < 3 * g ==> table[k] == TableEntry(widths, texW, rowH, k)
    modifies table
    ensures forall k :: 0 <= k < 3 * g + 3 ==> table[k] == TableEntry(widths, texW, rowH, k)
    ensures forall k :: 0 <= k < table.Length && !(3 * g <= k < 3 * g + 3) ==> table[k] == old(table[k])
  {
    table[3 * g] := ToU16(widths[g] + CharSpacing);
    table[3 * g + 1] := ToU16(at.x);
    table[3 * g + 2] := ToU16(at.y);
    TableEntryFields(widths, texW, rowH, g);
  }

  /** The font map entry of glyph g's character, set to g narrowed to uint8. */
  method MapGlyph(fontMap: array<Byte>, chars: seq<Byte>, g: nat, ghost before: seq<Byte>)
    requires fontMap.Length == |before| == 0x100 && g < |chars|
    requires forall c: Byte :: fontMap[c] == MapEntry(chars[..g], c, before[c])
    modifies fontMap
    ensures forall c: Byte :: fontMap[c] == MapEntry(chars[..g + 1], c, before[c])
  {
    fontMap[chars[g]] := g % 0x100;
    assert chars[..g + 1][..g] == chars[..g];
  }

  /** The glyph loop of CreateFontTextureAndTable: per glyph, the width with spacing, x and y
      offsets (as uint16) go to font table entries 3g, 3g+1, 3g+2, the map entry for its
      character (as uint8) is set to g, and the byte offset its bitmap is copied to is
      reported in `dest`. */
  method LayoutGlyphs(chars: seq<Byte>, widths: seq<nat>, originY: seq<int>, ascent: int, maxH: nat,
                      texW: nat, pixelDataSize: int, table: array<int>, fontMap: array?<Byte>)
    returns (dest: seq<int>)
    requires |chars| == |widths| == |originY|
    requires table.Length >= 3 * |widths|
    requires fontMap != null ==> fontMap.Length == 0x100
    modifies table, fontMap
    ensures |dest| == |widths|
    ensures forall g :: 0 <= g < |widths| ==>
              table[3 * g] == ToU16(widths[g] + CharSpacing) &&
              table[3 * g + 1] == ToU16(GlyphOffset(widths, texW, maxH + CharSpacing, g).x) &&
              table[3 * g + 2] == ToU16(GlyphOffset(widths, texW, maxH + CharSpacing, g).y)
    ensures forall g :: 0 <= g < |widths| ==> dest[g] == GlyphDest(widths, originY, ascent, texW, maxH + CharSpacing, pixelDataSize, g)
    ensures forall k :: 3 * |widths| <= k < table.Length ==> table[k] == old(table[k])
    ensures fontMap != null ==> forall c: Byte :: fontMap[c] == MapEntry(chars, c, old(fontMap[c]))
  {
    var rowH := maxH + CharSpacing;
    var at := Offset(0, 0);
    ghost var oldMap := if fontMap != null then fontMap[..] else [];
    dest := [];
    var g := 0;
    while g < |widths|
      invariant 0 <= g <= |widths| && |dest| == g
      invariant at == OffsetAfter(widths[..g], texW, rowH)
      invariant forall k :: 0 <= k < 3 * g ==> table[k] == TableEntry(widths, texW, rowH, k)
      invariant fontMap != null ==> |oldMap| == fontMap.Length
      invariant forall h :: 0 <= h < g ==> dest[h] == GlyphDest(widths, originY, ascent, texW, rowH, pixelDataSize, h)
      invariant forall k :: 3 * g <= k < table.Length ==> table[k] == old(table[k])
      invariant fontMap != null ==> forall c: Byte :: fontMap[c] == MapEntry(chars[..g], c, oldMap[c])
    {
      var w := widths[g];
      if at.x + w + CharSpacing >= texW {
        at := Offset(0, at.y + rowH);
      }
      assert at == GlyphOffset(widths, texW, rowH, g);
      if fontMap != null {
        MapGlyph(fontMap, chars, g, oldMap);
      }
      RecordGlyph(table, widths, texW, rowH, g, at);
      var yOff := GlyphRowByteOffset(at.y, ascent, originY[g], texW, pixelDataSize);
      dest := dest + [yOff + 2 * ToU16(at.x)];
      at := Offset(at.x + w + CharSpacing, at.y);
      assert widths[..g + 1][..g] == widths[..g];
      g := g + 1;
    }
    assert chars[..g] == chars;
    assert fontMap != null ==> forall c: Byte :: old(fontMap[c]) == oldMap[c];
    forall h | 0 <= h < |widths|
      ensures table[3 * h] == ToU16(widths[h] + CharSpacing)
      ensures table[3 * h + 1] == ToU16(GlyphOffset(widths, texW, rowH, h).x)
      ensures table[3 * h + 2] == ToU16(GlyphOffset(widths, texW, rowH, h).y)
    {
      TableEntryFields(widths, texW, rowH, h);
    }
  }

  /** The three table entries of glyph g: width with spacing, x offset, y offset. */
  lemma TableEntryFields(widths: seq<nat>, texW: int, rowH: int, g: nat)
    requires g < |widths|
    ensures TableEntry(widths, texW, rowH, 3 * g) == ToU16(widths[g] + CharSpacing)
    ensures TableEntry(widths, texW, rowH, 3 * g + 1) == ToU16(GlyphOffset(widths, texW, rowH, g).x)
    ensures TableEntry(widths, texW, rowH, 3 * g + 2) == ToU16(GlyphOffset(widths, texW, rowH, g).y)
  {
    assert (3 * g) / 3 == g && (3 * g + 1) / 3 == g && (3 * g + 2) / 3 == g;
  }

  // ---------------------------------------------------------------------------
  // Texture size
  // ---------------------------------------------------------------------------

  datatype Estimate = Estimate(x: int, breaks: nat)

  /** The row-filling walk of GetTextureSizeFromCharSizes as written: when a glyph does not
      fit, a row is added and x restarts at 0, without the glyph's own width. */
  function EstimateAsWritten(ws: seq<nat>, texW: int): (e: Estimate)
    ensures e.breaks <= |ws|
    ensures e.x < texW || e.x == 0
    decreases |ws|
  {
    if ws == [] then Estimate(0, 0)
    else
      var e := EstimateAsWritten(ws[..|ws| - 1], texW);
      var nx := e.x + ws[|ws| - 1] + CharSpacing;
      if nx < texW then Estimate(nx, e.breaks) else Estimate(0, e.breaks + 1)
  }

  /** The same walk with the glyph that starts a new row placed on it, as the layout does. */
  function EstimateCorrected(ws: seq<nat>, texW: int): Estimate
    decreases |ws|
  {
    if ws == [] then Estimate(0, 0)
    else
      var e := EstimateCorrected(ws[..|ws| - 1], texW);
      var ww := ws[|ws| - 1] + CharSpacing;
      if e.x + ww < texW then Estimate(e.x + ww, e.breaks) else Estimate(ww, e.breaks + 1)
  }

  /** GetTextureSizeFromCharSizes, with the glyph that starts a new row counted on that row: the
      width is the texture dimension of the raw width (the rounded square root of the estimated
      area, taken as an input here), the height that of one row per row the walk starts plus
      one, and every glyph the layout places lies inside the texture height. */
  method GetTextureSizeFromCharSizes(widths: seq<nat>, maxH: nat, rawWidth: int) returns (cx: int, cy: int)
    requires rawWidth <= 0x4000_0000
    requires (maxH + CharSpacing) * (|widths| + 1) <= 0x4000_0000
    ensures cx == TextureDimension(rawWidth) && IsPowerOfTwo(cx) && cx >= 32 && cx >= rawWidth
    ensures cy == TextureDimension((maxH + CharSpacing) * (EstimateCorrected(widths, cx).breaks + 1))
    ensures IsPowerOfTwo(cy) && cy >= 32 && cy >= (maxH + CharSpacing) * (EstimateCorrected(widths, cx).breaks + 1)
    ensures var rowH := maxH + CharSpacing; forall g :: 0 <= g < |widths| ==> GlyphOffset(widths, cx, rowH, g).y + rowH <= cy
  {
    cx := GetPowerOfTwo(rawWidth);
    var rowH := maxH + CharSpacing;
    var rawHeight := rowH;
    var x := 0;
    ghost var breaks := 0;
    var g := 0;
    while g < |widths|
      invariant 0 <= g <= |widths| && breaks <= g
      invariant Estimate(x, breaks) == EstimateCorrected(widths[..g], cx)
      invariant rawHeight == rowH * (breaks + 1)
    {
      assert widths[..g + 1][..g] == widths[..g];
      var nx := x + widths[g] + CharSpacing;
      if nx < cx {
        x := nx;
      } else {
        x := widths[g] + CharSpacing;
        MulStep(rowH, breaks + 1);
        rawHeight := rawHeight + rowH;
        breaks := breaks + 1;
      }
      g := g + 1;
    }
    assert widths[..|widths|] == widths;
    MulMono(rowH, breaks + 1, |widths| + 1);
    cy := GetPowerOfTwo(rawHeight);
    CorrectedHeightHoldsAll(widths, cx, maxH);
  }

  /** The corrected walk follows the layout exactly: same x, one break per row started. */
  lemma {:induction false} CorrectedEstimateFollowsLayout(ws: seq<nat>, texW: int, rowH: int)
    ensures EstimateCorrected(ws, texW).x == OffsetAfter(ws, texW, rowH).x
    ensures EstimateCorrected(ws, texW).breaks == LayoutBreaks(ws, texW)
    decreases |ws|
  {
    if ws != [] {
      var init := ws[..|ws| - 1];
      CorrectedEstimateFollowsLayout(init, texW, rowH);
      CorrectedEstimateFollowsLayout(init, texW, 0);
    }
  }

  lemma {:induction false} BreaksGrow(ws: seq<nat>, texW: int, g: nat)
    requires g <= |ws|
    ensures LayoutBreaks(ws[..g], texW) <= LayoutBreaks(ws, texW)
    decreases |ws| - g
  {
    if g < |ws| {
      var init := ws[..|ws| - 1];
      assert init[..g] == ws[..g];
      BreaksGrow(init, texW, g);
    } else {
      assert ws[..g] == ws;
    }
  }

  /** The chosen texture dimension is never smaller than the size asked for. */
  lemma TextureDimensionCovers(value: int)
    ensures TextureDimension(value) >= value
  {
    LiteralPowersOfTwo();
    PowerOfTwoFromIsLeast(value, 32);
  }

  /** The row of glyph g ends rowH times the number of rows its layout prefix starts. */
  lemma GlyphRowEnd(ws: seq<nat>, texW: int, rowH: int, g: nat)
    requires g < |ws|
    ensures GlyphOffset(ws, texW, rowH, g).y + rowH == rowH * (LayoutBreaks(ws[..g + 1], texW) + 1)
  {
    var pre := ws[..g + 1];
    assert pre[..g] == ws[..g] && pre[g] == ws[g];
    assert OffsetAfter(pre, texW, rowH).y == GlyphOffset(ws, texW, rowH, g).y;
    LayoutRows(pre, texW, rowH);
  }

  /** With the corrected walk, every glyph's row lies inside the texture height chosen. */
  lemma CorrectedHeightHoldsAll(ws: seq<nat>, texW: int, maxH: nat)
    ensures var rowH := maxH + CharSpacing;
            forall g :: 0 <= g < |ws| ==>
              GlyphOffset(ws, texW, rowH, g).y + rowH <= TextureDimension(rowH * (EstimateCorrected(ws, texW).breaks + 1))
  {
    var rowH := maxH + CharSpacing;
    forall g | 0 <= g < |ws|
      ensures GlyphOffset(ws, texW, rowH, g).y + rowH <= TextureDimension(rowH * (EstimateCorrected(ws, texW).breaks + 1))
    {
      CorrectedHeightHoldsEveryGlyph(ws, texW, maxH, g);
    }
  }

  lemma CorrectedHeightHoldsEveryGlyph(ws: seq<nat>, texW: int, maxH: nat, g: nat)
    requires g < |ws|
    ensures GlyphOffset(ws, texW, maxH + CharSpacing, g).y + maxH + CharSpacing
              <= TextureDimension((maxH + CharSpacing) * (EstimateCorrected(ws, texW).breaks + 1))
  {
    var rowH := maxH + CharSpacing;
    GlyphRowEnd(ws, texW, rowH, g);
    BreaksGrow(ws, texW, g + 1);
    CorrectedEstimateFollowsLayout(ws, texW, rowH);
    MulMono(rowH, LayoutBreaks(ws[..g + 1], texW) + 1, LayoutBreaks(ws, texW) + 1);
    TextureDimensionCovers(rowH * (LayoutBreaks(ws, texW) + 1));
  }

  /** Three glyphs of width 40 and height 14 in a 64-texel-wide texture (raw width 45, the
      rounded square root of 42 * 3 * 16): the walk as written counts one row break and sizes
      the texture 32 high, but the layout puts the third glyph at y = 32, below the texture. */
  lemma HeightAsWrittenTooSmall()
    ensures TextureDimension(45) == 64
    ensures EstimateAsWritten([40, 40, 40], 64).breaks == 1
    ensures TextureDimension(16 * (EstimateAsWritten([40, 40, 40], 64).breaks + 1)) == 32
    ensures GlyphOffset([40, 40, 40], 64, 16, 2).y == 32
    ensures EstimateCorrected([40, 40, 40], 64).breaks == 2
  {
    var ws: seq<nat> := [40, 40, 40];
    assert ws[..2][..1] == [40];
    assert ws[..2] == [40, 40];
    assert EstimateAsWritten([40], 64) == Estimate(42, 0);
    assert EstimateAsWritten([40, 40], 64) == Estimate(0, 1);
    assert OffsetAfter([40], 64, 16) == Offset(42, 0);
    assert OffsetAfter([40, 40], 64, 16) == Offset(42, 16);
    assert EstimateCorrected([40], 64) == Estimate(42, 0);
    assert EstimateCorrected([40, 40], 64) == Estimate(42, 1);
    assert PowerOfTwoFrom(45, 64) == 64;
    assert PowerOfTwoFrom(32, 32) == 32;
  }
}

