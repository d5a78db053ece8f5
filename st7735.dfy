/** The ST7735 display driver (src/hal/displays/st7735.c) as the stream of
    events it sends: colour packing, the address window, pixels, rectangles,
    buffers, 5x7 characters and strings, and the rotation setting. */
module St7735 {
  import opened Util
  import opened St7735Script

  const TftWidth := 128
  const TftHeight := 160

  const Caset: bv8 := 0x2A
  const Raset: bv8 := 0x2B
  const Ramwr: bv8 := 0x2C
  const Madctl: bv8 := 0x36

  const MadctlMY: bv8 := 0x80
  const MadctlMX: bv8 := 0x40
  const MadctlMV: bv8 := 0x20
  const MadctlBgr: bv8 := 0x08

  // ---------------------------------------------------------------- colours

  /** `st7735_rgb`: five bits of red, six of green, five of blue. */
  function Rgb565(r: bv8, g: bv8, b: bv8): bv16
  {
    ((r & 0xF8) as bv16 << 8) | ((g & 0xFC) as bv16 << 3) | (b >> 3) as bv16
  }

  /** Bits 15-11 hold r>>3, bits 10-5 hold g>>2 and bits 4-0 hold b>>3. */
  lemma Rgb565Fields(r: bv8, g: bv8, b: bv8)
    ensures Rgb565(r, g, b) >> 11 == (r >> 3) as bv16
    ensures (Rgb565(r, g, b) >> 5) & 0x3F == (g >> 2) as bv16
    ensures Rgb565(r, g, b) & 0x1F == (b >> 3) as bv16
  {
  }

  /** The colour word built from the kept bits alone. */
  function Rgb565Of(r5: bv8, g6: bv8, b5: bv8): bv16
  {
    ((r5 as bv16) << 11) | ((g6 as bv16) << 5) | (b5 as bv16)
  }

  lemma Rgb565Kept(r: bv8, g: bv8, b: bv8)
    ensures Rgb565(r, g, b) == Rgb565Of(r >> 3, g >> 2, b >> 3)
  {
  }

  /** Two colours pack alike exactly when they agree in the bits kept. */
  lemma Rgb565Equal(r: bv8, g: bv8, b: bv8, r': bv8, g': bv8, b': bv8)
    ensures Rgb565(r, g, b) == Rgb565(r', g', b') <==> r >> 3 == r' >> 3 && g >> 2 == g' >> 2 && b >> 3 == b' >> 3
  {
    if r >> 3 == r' >> 3 && g >> 2 == g' >> 2 && b >> 3 == b' >> 3 {
      assert Rgb565(r, g, b) == Rgb565(r', g', b') by {
        Rgb565Kept(r, g, b);
        Rgb565Kept(r', g', b');
      }
    }
    if Rgb565(r, g, b) == Rgb565(r', g', b') {
      assert r >> 3 == r' >> 3 by {
        Rgb565Fields(r, g, b);
        Rgb565Fields(r', g', b');
        ShiftedBack(r >> 3, r' >> 3);
      }
      assert g >> 2 == g' >> 2 by {
        Rgb565Fields(r, g, b);
        Rgb565Fields(r', g', b');
        ShiftedBack(g >> 2, g' >> 2);
      }
      assert b >> 3 == b' >> 3 by {
        Rgb565Fields(r, g, b);
        Rgb565Fields(r', g', b');
        ShiftedBack(b >> 3, b' >> 3);
      }
    }
  }

  lemma ShiftedBack(a: bv8, a': bv8)
    requires a as bv16 == a' as bv16
    ensures a == a'
  {
  }

  /** The high and the low byte of a colour, sent in that order. */
  function Hi(c: bv16): bv8 { (c >> 8) as bv8 }
  function Lo(c: bv16): bv8 { (c & 0xFF) as bv8 }

  lemma HiLo(c: bv16)
    ensures ((Hi(c) as bv16) << 8) | (Lo(c) as bv16) == c
  {
  }

  function PixelBytes(c: bv16): seq<bv8> { [Hi(c), Lo(c)] }

  /** `n` pixels of colour `c`, high byte first. */
  function Pixels(n: nat, c: bv16): (p: seq<bv8>)
    ensures |p| == 2 * n
  {
    seq(2 * n, k => if k % 2 == 0 then Hi(c) else Lo(c))
  }

  // ---------------------------------------------------------------- the address window

  /** An `int` passed where a `uint8_t` is expected. */
  function Trunc8(v: int): bv8 { ByteOf(v % 256) }

  /** A coordinate plus the panel offset, sent as a byte. */
  function AddOffset(v: bv8, offset: nat): bv8 { ByteOf((v as int + offset) % 256) }

  /** The byte sent for a coordinate is the coordinate plus the offset, modulo
      256; exactly the sum when that fits in a byte. */
  lemma CoordinateByte(v: int, offset: nat)
    ensures AddOffset(Trunc8(v), offset) as int == (v + offset) % 256
    ensures 0 <= v && v + offset < 256 ==> AddOffset(Trunc8(v), offset) as int == v + offset
  {
    TruncValue(v);
    AddOffsetValue(Trunc8(v), offset);
    ModOfLow(v, offset);
    if 0 <= v && v + offset < 256 {
      ModOfSum(v + offset, 0, v + offset);
    }
  }

  lemma TruncValue(v: int)
    ensures Trunc8(v) as int == v % 256
  {
    ByteOfValue(v % 256);
  }

  lemma AddOffsetValue(b: bv8, offset: nat)
    ensures AddOffset(b, offset) as int == (b as int + offset) % 256
  {
    ByteOfValue((b as int + offset) % 256);
  }

  lemma ModOfLow(v: int, offset: nat)
    ensures (v % 256 + offset) % 256 == (v + offset) % 256
  {
    var r := (v % 256 + offset) % 256;
    var k := (v % 256 + offset) / 256;
    assert v % 256 + offset == 256 * k + r;
    assert v + offset == 256 * (v / 256 + k) + r;
    ModOfSum(v + offset, v / 256 + k, r);
  }

  lemma ModOfSum(a: int, k: int, r: int)
    requires a == 256 * k + r && 0 <= r < 256
    ensures a % 256 == r
  {
  }

  /** `st7735_set_addr_window`. */
  function Window(offset: nat, x0: bv8, y0: bv8, x1: bv8, y1: bv8): seq<Event>
  {
    [Cmd(Caset), Data(0), Data(AddOffset(x0, offset)), Data(0), Data(AddOffset(x1, offset)),
     Cmd(Raset), Data(0), Data(AddOffset(y0, offset)), Data(0), Data(AddOffset(y1, offset)),
     Cmd(Ramwr)]
  }

  /** The window of the rectangle at (x, y) of size w by h, coordinates
      truncated to bytes as the call does. */
  function RectWindow(offset: nat, x: int, y: int, w: int, h: int): seq<Event>
  {
    Window(offset, Trunc8(x), Trunc8(y), Trunc8(x + w - 1), Trunc8(y + h - 1))
  }

  /** The window is a column command with start and end, a row command with
      start and end, and the memory write, each coordinate the sum with the offset. */
  lemma RectWindowShape(offset: nat, x: int, y: int, w: int, h: int)
    ensures var ev := RectWindow(offset, x, y, w, h);
      && |ev| == 11 && ev[0] == Cmd(Caset) && ev[5] == Cmd(Raset) && ev[10] == Cmd(Ramwr)
      && ev[1] == Data(0) && ev[3] == Data(0) && ev[6] == Data(0) && ev[8] == Data(0)
      && ev[2].b as int == (x + offset) % 256 && ev[4].b as int == (x + w - 1 + offset) % 256
      && ev[7].b as int == (y + offset) % 256 && ev[9].b as int == (y + h - 1 + offset) % 256
  {
    CoordinateByte(x, offset);
    CoordinateByte(x + w - 1, offset);
    CoordinateByte(y, offset);
    CoordinateByte(y + h - 1, offset);
  }

  // ---------------------------------------------------------------- clipping

  /** The clipping of `fill_rect` and `draw_buffer` along one axis. */
  function Clip(pos: int, len: int, limit: int): (r: int)
    ensures r <= len && pos + r <= limit
    ensures r == len || pos + r == limit
    ensures pos + len <= limit ==> r == len
    ensures pos < limit && 0 <= len ==> 0 <= r
  {
    if pos + len - 1 >= limit then limit - pos else len
  }

  // ---------------------------------------------------------------- the font

  /** `font5x7`: five column bytes per character from 0x20 to 0x7F, bit j of a
      column byte being row j. */
  const Font: seq<bv8> := [
    0x00, 0x00, 0x00, 0x00, 0x00, 0x00, 0x00, 0x5f, 0x00, 0x00,
    0x00, 0x07, 0x00, 0x07, 0x00, 0x14, 0x7f, 0x14, 0x7f, 0x14,
    0x24, 0x2a, 0x7f, 0x2a, 0x12, 0x23, 0x13, 0x08, 0x64, 0x62,
    0x36, 0x49, 0x55, 0x22, 0x50, 0x00, 0x05, 0x03, 0x00, 0x00,
    0x00, 0x1c, 0x22, 0x41, 0x00, 0x00, 0x41, 0x22, 0x1c, 0x00,
    0x08, 0x2a, 0x1c, 0x2a, 0x08, 0x08, 0x08, 0x3e, 0x08, 0x08,
    0x00, 0x50, 0x30, 0x00, 0x00, 0x08, 0x08, 0x08, 0x08, 0x08,
    0x00, 0x60, 0x60, 0x00, 0x00, 0x20, 0x10, 0x08, 0x04, 0x02,
    0x3e, 0x51, 0x49, 0x45, 0x3e, 0x00, 0x42, 0x7f, 0x40, 0x00,
    0x42, 0x61, 0x51, 0x49, 0x46, 0x21, 0x41, 0x45, 0x4b, 0x31,
    0x18, 0x14, 0x12, 0x7f, 0x10, 0x27, 0x45, 0x45, 0x45, 0x39,
    0x3c, 0x4a, 0x49, 0x49, 0x30, 0x01, 0x71, 0x09, 0x05, 0x03,
    0x36, 0x49, 0x49, 0x49, 0x36, 0x06, 0x49, 0x49, 0x29, 0x1e,
    0x00, 0x36, 0x36, 0x00, 0x00, 0x00, 0x56, 0x36, 0x00, 0x00,
    0x00, 0x08, 0x14, 0x22, 0x41, 0x14, 0x14, 0x14, 0x14, 0x14,
    0x41, 0x22, 0x14, 0x08, 0x00, 0x02, 0x01, 0x51, 0x09, 0x06,
    0x32, 0x49, 0x79, 0x41, 0x3e, 0x7e, 0x11, 0x11, 0x11, 0x7e,
    0x7f, 0x49, 0x49, 0x49, 0x36, 0x3e, 0x41, 0x41, 0x41, 0x22,
    0x7f, 0x41, 0x41, 0x22, 0x1c, 0x7f, 0x49, 0x49, 0x49, 0x41,
    0x7f, 0x09, 0x09, 0x01, 0x01, 0x3e, 0x41, 0x41, 0x51, 0x32,
    0x7f, 0x08, 0x08, 0x08, 0x7f, 0x00, 0x41, 0x7f, 0x41, 0x00,
    0x20, 0x40, 0x41, 0x3f, 0x01, 0x7f, 0x08, 0x14, 0x22, 0x41,
    0x7f, 0x40, 0x40, 0x40, 0x40, 0x7f, 0x02, 0x04, 0x02, 0x7f,
    0x7f, 0x04, 0x08, 0x10, 0x7f, 0x3e, 0x41, 0x41, 0x41, 0x3e,
    0x7f, 0x09, 0x09, 0x09, 0x06, 0x3e, 0x41, 0x51, 0x21, 0x5e,
    0x7f, 0x09, 0x19, 0x29, 0x46, 0x46, 0x49, 0x49, 0x49, 0x31,
    0x01, 0x01, 0x7f, 0x01, 0x01, 0x3f, 0x40, 0x40, 0x40, 0x3f,
    0x1f, 0x20, 0x40, 0x20, 0x1f, 0x7f, 0x20, 0x18, 0x20, 0x7f,
    0x63, 0x14, 0x08, 0x14, 0x63, 0x03, 0x04, 0x78, 0x04, 0x03,
    0x61, 0x51, 0x49, 0x45, 0x43, 0x00, 0x00, 0x7f, 0x41, 0x41,
    0x02, 0x04, 0x08, 0x10, 0x20, 0x41, 0x41, 0x7f, 0x00, 0x00,
    0x04, 0x02, 0x01, 0x02, 0x04, 0x40, 0x40, 0x40, 0x40, 0x40,
    0x00, 0x01, 0x02, 0x04, 0x00, 0x20, 0x54, 0x54, 0x54, 0x78,
    0x7f, 0x48, 0x44, 0x44, 0x38, 0x38, 0x44, 0x44, 0x44, 0x20,
    0x38, 0x44, 0x44, 0x48, 0x7f, 0x38, 0x54, 0x54, 0x54, 0x18,
    0x08, 0x7e, 0x09, 0x01, 0x02, 0x08, 0x14, 0x54, 0x54, 0x3c,
    0x7f, 0x08, 0x04, 0x04, 0x78, 0x00, 0x44, 0x7d, 0x40, 0x00,
    0x20, 0x40, 0x44, 0x3d, 0x00, 0x00, 0x7f, 0x10, 0x28, 0x44,
    0x00, 0x41, 0x7f, 0x40, 0x00, 0x7c, 0x04, 0x18, 0x04, 0x78,
    0x7c, 0x08, 0x04, 0x04, 0x78, 0x38, 0x44, 0x44, 0x44, 0x38,
    0x7c, 0x14, 0x14, 0x14, 0x08, 0x08, 0x14, 0x14, 0x18, 0x7c,
    0x7c, 0x08, 0x04, 0x04, 0x08, 0x48, 0x54, 0x54, 0x54, 0x20,
    0x04, 0x3f, 0x44, 0x40, 0x20, 0x3c, 0x40, 0x40, 0x20, 0x7c,
    0x1c, 0x20, 0x40, 0x20, 0x1c, 0x3c, 0x40, 0x30, 0x40, 0x3c,
    0x44, 0x28, 0x10, 0x28, 0x44, 0x0c, 0x50, 0x50, 0x50, 0x3c,
    0x44, 0x64, 0x54, 0x4c, 0x44, 0x00, 0x08, 0x36, 0x41, 0x00,
    0x00, 0x00, 0x7f, 0x00, 0x00, 0x00, 0x41, 0x36, 0x08, 0x00,
    0x08, 0x08, 0x2a, 0x1c, 0x08, 0x08, 0x1c, 0x2a, 0x08, 0x08]

  lemma FontSize()
    ensures |Font| == 480
  {
  }

  /** A table laid out as `font5x7`. */
  predicate FontTable(font: seq<bv8>)
  {
    |font| == 480
  }

  /** The font entry `draw_char` uses; characters outside 0x20..0x7F use the space. */
  function GlyphIndex(ch: bv8): (k: nat)
    ensures k < 96
    ensures ch as int < 0x20 || ch as int > 0x7F ==> k == 0
    ensures 0x20 <= ch as int <= 0x7F ==> k == ch as int - 0x20
  {
    var c := ch as int;
    if c < 0x20 || c > 0x7F then 0 else c - 0x20
  }

  /** Column `i` of glyph `g`: the five font columns and a blank one. */
  function GlyphColumn(font: seq<bv8>, g: nat, i: nat): bv8
    requires FontTable(font) && g < 96 && i < 6
  {
    if i == 5 then 0 else font[5 * g + i]
  }

  /** The byte with only bit j set. */
  function BitMask(j: nat): bv8
    requires j < 8
  {
    if j == 0 then 0x01 else if j == 1 then 0x02 else if j == 2 then 0x04 else if j == 3 then 0x08
    else if j == 4 then 0x10 else if j == 5 then 0x20 else if j == 6 then 0x40 else 0x80
  }

  /** `(b >> j) & 1` tests bit j. */
  lemma ShiftBit(b: bv8, j: nat)
    requires j < 8
    ensures ((b >> j) & 1 == 1) == (b & BitMask(j) != 0)
  {
    if j == 0 {
    } else if j == 1 {
    } else if j == 2 {
    } else if j == 3 {
    } else if j == 4 {
    } else if j == 5 {
    } else if j == 6 {
    } else {
    }
  }

  /** Whether pixel (column i, row j) of glyph `g` is foreground: bit j of
      column i. */
  predicate PixelOn(font: seq<bv8>, g: nat, i: nat, j: nat)
    requires FontTable(font) && g < 96 && i < 6 && j < 8
  {
    GlyphColumn(font, g, i) & BitMask(j) != 0
  }

  /** Byte `k` of the 6x8 image of glyph `g`: pixel p = k/2 is column p%6 of row p/6. */
  function ImageByte(font: seq<bv8>, g: nat, fg: bv16, bg: bv16, k: nat): bv8
    requires FontTable(font) && g < 96 && k < 96
  {
    var p := k / 2;
    var c := if PixelOn(font, g, p % 6, p / 6) then fg else bg;
    if k % 2 == 0 then Hi(c) else Lo(c)
  }

  function GlyphImage(font: seq<bv8>, g: nat, fg: bv16, bg: bv16): (img: seq<bv8>)
    requires FontTable(font) && g < 96
    ensures |img| == 96
  {
    seq(96, k requires 0 <= k < 96 => ImageByte(font, g, fg, bg, k))
  }

  /** `char_image` of `st7735_draw_char`. */
  function CharImage(font: seq<bv8>, ch: bv8, fg: bv16, bg: bv16): (img: seq<bv8>)
    requires FontTable(font)
    ensures |img| == 96
  {
    GlyphImage(font, GlyphIndex(ch), fg, bg)
  }

  lemma PixelOffset(i: nat, j: nat)
    requires i < 6 && j < 8
    ensures 2 * (6 * j + i) < 96
    ensures (2 * (6 * j + i)) / 2 == 6 * j + i && (2 * (6 * j + i) + 1) / 2 == 6 * j + i
    ensures (6 * j + i) % 6 == i && (6 * j + i) / 6 == j
  {
  }

  /** The two bytes of pixel (i, j) of glyph `g`, as the pixel loop writes them
      at 12j + 2i. */
  lemma ImageBytesAt(font: seq<bv8>, g: nat, fg: bv16, bg: bv16, i: nat, j: nat)
    requires FontTable(font) && g < 96 && i < 6 && j < 8
    ensures 12 * j + 2 * i + 1 < 96
    ensures var c := if PixelOn(font, g, i, j) then fg else bg;
      ImageByte(font, g, fg, bg, 12 * j + 2 * i) == Hi(c) && ImageByte(font, g, fg, bg, 12 * j + 2 * i + 1) == Lo(c)
  {
    PixelOffset(i, j);
    assert 12 * j + 2 * i == 2 * (6 * j + i);
  }

  /** Pixel (column i, row j) sits at bytes 2*(6j+i) and 2*(6j+i)+1, high byte
      first; it has the foreground colour exactly when bit j of glyph column i
      is set, so the sixth column is always background. */
  lemma CharImagePixel(font: seq<bv8>, ch: bv8, fg: bv16, bg: bv16, i: nat, j: nat)
    requires FontTable(font) && i < 6 && j < 8
    ensures var c := if PixelOn(font, GlyphIndex(ch), i, j) then fg else bg;
      CharImage(font, ch, fg, bg)[2 * (6 * j + i)] == Hi(c) && CharImage(font, ch, fg, bg)[2 * (6 * j + i) + 1] == Lo(c)
    ensures i == 5 ==> !PixelOn(font, GlyphIndex(ch), i, j)
  {
    PixelOffset(i, j);
  }

  /** A character outside the font draws exactly as a space. */
  lemma InvalidCharIsSpace(font: seq<bv8>, ch: bv8, fg: bv16, bg: bv16)
    requires FontTable(font)
    requires ch < 0x20 || ch > 0x7F
    ensures CharImage(font, ch, fg, bg) == CharImage(font, 0x20, fg, bg)
  {
    assert GlyphIndex(ch) == GlyphIndex(0x20);
  }

  /** The glyph and pixel loops of `st7735_draw_char`, over the font table `font`. */
  method Rasterize(font: seq<bv8>, ch: bv8, fg: bv16, bg: bv16) returns (image: seq<bv8>)
    requires FontTable(font)
    ensures image == CharImage(font, ch, fg, bg)
  {
    var c := ch;
    if c < 0x20 || c > 0x7F {
      c := 0x20;
    }
    ghost var g := GlyphIndex(ch);
    var glyph := new bv8[6];
    var base := 5 * (c as int - 0x20);
    assert base == 5 * g;
    for i := 0 to 5
      invariant forall k :: 0 <= k < i ==> glyph[k] == GlyphColumn(font, g, k)
    {
      glyph[i] := font[base + i];
    }
    glyph[5] := 0;
    var charImage := new bv8[96];
    var bufIdx := 0;
    for j := 0 to 8
      modifies charImage
      invariant bufIdx == 12 * j
      invariant forall k :: 0 <= k < bufIdx ==> charImage[k] == ImageByte(font, g, fg, bg, k)
    {
      for i := 0 to 6
        modifies charImage
        invariant bufIdx == 12 * j + 2 * i
        invariant forall k :: 0 <= k < bufIdx ==> charImage[k] == ImageByte(font, g, fg, bg, k)
      {
        PutPixel(charImage, font, g, glyph[i], i, j, bufIdx, fg, bg);
        bufIdx := bufIdx + 2;
      }
    }
    image := charImage[..];
    assert image == GlyphImage(font, g, fg, bg);
  }

  /** One pass of the pixel loop of `st7735_draw_char`: pixel (i, j) from
      glyph column `column`, written at `bufIdx` after the pixels before it. */
  method PutPixel(charImage: array<bv8>, ghost font: seq<bv8>, ghost g: nat, column: bv8, i: nat, j: nat, bufIdx: nat, fg: bv16, bg: bv16)
    requires FontTable(font) && g < 96 && i < 6 && j < 8 && column == GlyphColumn(font, g, i)
    requires charImage.Length == 96 && bufIdx == 12 * j + 2 * i
    requires forall k :: 0 <= k < bufIdx ==> charImage[k] == ImageByte(font, g, fg, bg, k)
    modifies charImage
    ensures forall k :: 0 <= k < bufIdx + 2 ==> charImage[k] == ImageByte(font, g, fg, bg, k)
  {
    ImageBytesAt(font, g, fg, bg, i, j);
    ShiftBit(column, j);
    if (column >> j) & 1 == 1 {
      charImage[bufIdx] := Hi(fg);
      charImage[bufIdx + 1] := Lo(fg);
    } else {
      charImage[bufIdx] := Hi(bg);
      charImage[bufIdx + 1] := Lo(bg);
    }
  }

  // ---------------------------------------------------------------- what each call sends

  /** `st7735_reset`: the reset pin low for 50 ms, then high for 50 ms. */
  function ResetEvents(): seq<Event>
  {
    [ResetPin(false), Sleep(50), ResetPin(true), Sleep(50)]
  }

  /** `st7735_draw_pixel`: nothing off screen, else a 1x1 window and the colour. */
  function PixelEvents(width: int, height: int, offset: nat, x: int, y: int, color: bv16): seq<Event>
  {
    if x < 0 || x >= width || y < 0 || y >= height then []
    else Window(offset, Trunc8(x), Trunc8(y), Trunc8(x), Trunc8(y)) + DataEvents(PixelBytes(color))
  }

  /** What `st7735_begin` sends when its table is `script`. */
  function BeginEvents(script: seq<bv8>, colorMode: bv8): seq<Event>
  {
    ResetEvents() + RunFrom(Start, script) + [Cmd(Madctl), Data(0xC0 | colorMode)]
  }

  /** `n` copies of a line buffer, one after another (nothing for n <= 0). */
  function Repeat(line: seq<bv8>, n: int): (r: seq<bv8>)
    decreases n
  {
    if n <= 0 then [] else Repeat(line, n - 1) + line
  }

  /** `st7735_fill_rect`. Whether the line buffer could be allocated is an
      input; a negative clipped width asks for an impossible size and fails. */
  function FillRectEvents(width: int, height: int, offset: nat, x: int, y: int, w: int, h: int,
                          color: bv16, allocOk: bool): seq<Event>
  {
    if x >= width || y >= height then []
    else ClippedFill(offset, x, y, Clip(x, w, width), Clip(y, h, height), color, allocOk)
  }

  /** The rectangle after clipping: its window, then its lines. */
  function ClippedFill(offset: nat, x: int, y: int, cw: int, ch: int, color: bv16, allocOk: bool): seq<Event>
  {
    RectWindow(offset, x, y, cw, ch)
      + (if !allocOk || cw < 0 then [] else DataEvents(Repeat(Pixels(cw, color), ch)))
  }

  /** The visible part of a w-pixel-wide buffer: `rows` rows of `cw` pixels,
      each row starting `stride` pixels after the previous one. */
  function Cropped(buf: seq<bv8>, stride: nat, cw: nat, rows: nat): (r: seq<bv8>)
    requires cw <= stride && 2 * stride * rows <= |buf|
    ensures |r| == 2 * cw * rows
  {
    if rows == 0 then []
    else
      RowBounds(stride, cw, rows);
      Cropped(buf, stride, cw, rows - 1) + buf[2 * stride * (rows - 1) .. 2 * stride * (rows - 1) + 2 * cw]
  }

  lemma RowBounds(stride: nat, cw: nat, rows: nat)
    requires cw <= stride && 0 < rows
    ensures 2 * stride * (rows - 1) + 2 * cw <= 2 * stride * rows
    ensures 2 * cw * (rows - 1) + 2 * cw == 2 * cw * rows
  {
    assert stride * rows == stride * (rows - 1) + stride;
    assert cw * rows == cw * (rows - 1) + cw;
  }

  lemma RowSlice(stride: nat, cw: nat, j: nat, rows: nat, len: nat)
    requires cw <= stride && j < rows && 2 * stride * rows <= len
    ensures 0 <= 2 * stride * j && 2 * stride * j + 2 * cw <= len
    ensures 2 * stride * (j + 1) <= len
  {
    MulLe(0, 0, 2 * stride, j);
    RowBounds(stride, cw, j + 1);
    MulLe(stride, j + 1, stride, rows);
  }

  lemma CroppedSnoc(buf: seq<bv8>, stride: nat, cw: nat, j: nat)
    requires cw <= stride && 2 * stride * (j + 1) <= |buf|
    ensures 2 * stride * j + 2 * cw <= |buf|
    ensures Cropped(buf, stride, cw, j + 1) == Cropped(buf, stride, cw, j) + buf[2 * stride * j .. 2 * stride * j + 2 * cw]
  {
    RowBounds(stride, cw, j + 1);
  }

  lemma MulLe(a: nat, b: nat, a': nat, b': nat)
    requires a <= a' && b <= b'
    ensures a * b <= a' * b'
  {
    assert a * b <= a' * b;
    assert a' * b <= a' * b';
  }

  /** `st7735_draw_buffer` sending each visible row from its place in the
      buffer (the corrected clipping). */
  function BufferEvents(width: int, height: int, offset: nat, x: int, y: int, w: int, h: int,
                        buffer: seq<bv8>): seq<Event>
    requires 0 <= w && 0 <= h && 2 * w * h <= |buffer|
  {
    if x >= width || y >= height then []
    else
      var ch := Clip(y, h, height);
      MulLe(w, ch, w, h);
      ClippedBuffer(offset, x, y, w, Clip(x, w, width), ch, buffer)
  }

  /** A buffer of row stride `w` after clipping to `cw` by `ch` pixels. */
  function ClippedBuffer(offset: nat, x: int, y: int, w: nat, cw: nat, ch: nat, buffer: seq<bv8>): seq<Event>
    requires cw <= w && 2 * w * ch <= |buffer|
  {
    RectWindow(offset, x, y, cw, ch) + DataEvents(Cropped(buffer, w, cw, ch))
  }

  /** `st7735_draw_buffer` as written: after clipping it sends the first
      w'*h'*2 bytes of the buffer whatever its row stride. */
  function BufferEventsAsWritten(width: int, height: int, offset: nat, x: int, y: int, w: int, h: int,
                                 buffer: seq<bv8>): seq<Event>
    requires 0 <= w && 0 <= h && 2 * w * h <= |buffer|
  {
    if x >= width || y >= height then []
    else
      var cw := Clip(x, w, width);
      var ch := Clip(y, h, height);
      MulLe(cw, ch, w, h);
      RectWindow(offset, x, y, cw, ch) + DataEvents(buffer[..2 * cw * ch])
  }

  /** `st7735_draw_char` with font table `font`: the character image through
      the corrected buffer drawing. */
  function CharEvents(width: int, height: int, offset: nat, font: seq<bv8>, x: int, y: int, ch: bv8, fg: bv16, bg: bv16): seq<Event>
    requires FontTable(font)
  {
    BufferEvents(width, height, offset, x, y, 6, 8, CharImage(font, ch, fg, bg))
  }

  /** Characters drawn left to right from x, six pixels apart, by `draw`
      (which maps a column and a character to what drawing it sends). */
  function Layout(draw: (int, bv8) -> seq<Event>, x: int, s: seq<bv8>): seq<Event>
  {
    if |s| == 0 then []
    else
      Layout(draw, x, s[..|s| - 1]) + draw(x + 6 * (|s| - 1), s[|s| - 1])
  }

  /** Drawing one character of row y with font table `font`. */
  function CharDraw(width: int, height: int, offset: nat, font: seq<bv8>, y: int, fg: bv16, bg: bv16): (int, bv8) -> seq<Event>
  {
    (cx: int, ch: bv8) => if FontTable(font) then CharEvents(width, height, offset, font, cx, y, ch, fg, bg) else []
  }

  /** `st7735_draw_string` over characters none of which is the terminator. */
  function StringEvents(width: int, height: int, offset: nat, font: seq<bv8>, x: int, y: int, s: seq<bv8>, fg: bv16, bg: bv16): seq<Event>
  {
    Layout(CharDraw(width, height, offset, font, y, fg, bg), x, s)
  }

  /** The length of a C string: the characters before the first NUL, or all. */
  function StrLen(s: seq<bv8>): (n: nat)
    ensures n <= |s|
    ensures forall k :: 0 <= k < n ==> s[k] != 0
    ensures n < |s| ==> s[n] == 0
  {
    if |s| == 0 || s[0] == 0 then 0 else 1 + StrLen(s[1..])
  }

  /** The MADCTL byte `st7735_set_rotation` writes for `m`. */
  function RotationMadctl(m: bv8, colorMode: bv8): bv8
  {
    var r := m % 4;
    if r == 0 then MadctlMX | MadctlMY | colorMode
    else if r == 1 then MadctlMY | MadctlMV | colorMode
    else if r == 2 then colorMode
    else MadctlMX | MadctlMV | colorMode
  }

  /** The width and height after `st7735_set_rotation(m)`. */
  function RotationSize(m: bv8): (int, int)
  {
    if m % 4 == 1 || m % 4 == 3 then (TftHeight, TftWidth) else (TftWidth, TftHeight)
  }

  lemma WindowParts(base: seq<Event>, offset: nat, x0: bv8, y0: bv8, x1: bv8, y1: bv8)
    ensures base + [Cmd(Caset)] + [Data(0), Data(AddOffset(x0, offset)), Data(0), Data(AddOffset(x1, offset))]
        + [Cmd(Raset)] + [Data(0), Data(AddOffset(y0, offset)), Data(0), Data(AddOffset(y1, offset))] + [Cmd(Ramwr)]
      == base + Window(offset, x0, y0, x1, y1)
  {
    var w := Window(offset, x0, y0, x1, y1);
    var a, b := AddOffset(x0, offset), AddOffset(x1, offset);
    var c, d := AddOffset(y0, offset), AddOffset(y1, offset);
    assert w == [Cmd(Caset)] + [Data(0), Data(a), Data(0), Data(b)] + [Cmd(Raset)] + [Data(0), Data(c), Data(0), Data(d)] + [Cmd(Ramwr)];
  }

  // ---------------------------------------------------------------- properties

  /** `st7735_begin` sends the reset, then exactly the events of the 21 init
      groups, then MADCTL 0xC0 with the colour order bit. */
  lemma BeginSends(colorMode: bv8)
    ensures BeginEvents(InitScript, colorMode) == ResetEvents() + Expected(InitGroups) + [Cmd(Madctl), Data(0xC0 | colorMode)]
  {
    InitScriptEncodes();
  }

  /** A pixel off screen sends nothing; on screen it sends its 1x1 window and
      the colour, high byte first, exactly as a 1x1 rectangle would. */
  lemma PixelSends(width: int, height: int, offset: nat, x: int, y: int, color: bv16)
    ensures PixelEvents(width, height, offset, x, y, color) == [] <==> !(0 <= x < width && 0 <= y < height)
    ensures 0 <= x < width && 0 <= y < height ==>
      PixelEvents(width, height, offset, x, y, color) == RectWindow(offset, x, y, 1, 1) + [Data(Hi(color)), Data(Lo(color))]
    ensures 0 <= x && 0 <= y ==>
      PixelEvents(width, height, offset, x, y, color) == FillRectEvents(width, height, offset, x, y, 1, 1, color, true)
  {
    if 0 <= x < width && 0 <= y < height {
      assert Repeat(Pixels(1, color), 1) == [] + Pixels(1, color);
      assert Pixels(1, color) == PixelBytes(color);
      assert DataEvents(PixelBytes(color)) == [Data(Hi(color)), Data(Lo(color))];
      assert |RectWindow(offset, x, y, 1, 1)| == 11;
    }
  }

  /** Sending the data bytes of one more chunk extends the data sent so far. */
  lemma DataStep(base: seq<Event>, before: seq<Event>, after: seq<Event>, sent: seq<bv8>, chunk: seq<bv8>, total: seq<bv8>)
    requires before == base + DataEvents(sent) && after == before + DataEvents(chunk)
    requires total == sent + chunk
    ensures after == base + DataEvents(total)
  {
    DataEventsAppend(sent, chunk);
    AppendAssoc(base, DataEvents(sent), DataEvents(chunk));
  }

  /** One more line after j lines gives j + 1 lines. */
  lemma RepeatStep(base: seq<Event>, before: seq<Event>, after: seq<Event>, line: seq<bv8>, j: nat)
    requires before == base + DataEvents(Repeat(line, j)) && after == before + DataEvents(line)
    ensures after == base + DataEvents(Repeat(line, j + 1))
  {
    DataStep(base, before, after, Repeat(line, j), line, Repeat(line, j + 1));
  }

  /** Row j of the buffer after its first j visible rows gives j + 1 rows. */
  lemma CroppedStep(base: seq<Event>, before: seq<Event>, after: seq<Event>, buf: seq<bv8>, stride: nat, cw: nat, j: nat, start: nat)
    requires cw <= stride && start == 2 * stride * j
    requires start + 2 * cw <= |buf| && 2 * stride * (j + 1) <= |buf|
    requires before == base + DataEvents(Cropped(buf, stride, cw, j))
    requires after == before + DataEvents(buf[start .. start + 2 * cw])
    ensures after == base + DataEvents(Cropped(buf, stride, cw, j + 1))
  {
    CroppedSnoc(buf, stride, cw, j);
    DataStep(base, before, after, Cropped(buf, stride, cw, j), buf[start .. start + 2 * cw], Cropped(buf, stride, cw, j + 1));
  }

  /** A loop counting up from 0 while below n stops with n copies. */
  lemma RepeatEnd(line: seq<bv8>, j: int, n: int)
    requires 0 <= j <= (if n < 0 then 0 else n) && !(j < n)
    ensures Repeat(line, j) == Repeat(line, n)
  {
  }

  /** A buffer whose corner is on screen is sent through its clipped size. */
  lemma BufferClipped(width: int, height: int, offset: nat, x: int, y: int, w: int, h: int, buffer: seq<bv8>, cw: int, ch: int)
    requires 0 <= w && 0 <= h && 2 * w * h <= |buffer|
    requires x < width && y < height && cw == Clip(x, w, width) && ch == Clip(y, h, height)
    ensures 0 <= cw <= w && 0 <= ch <= h && 2 * w * ch <= |buffer|
    ensures BufferEvents(width, height, offset, x, y, w, h, buffer) == ClippedBuffer(offset, x, y, w, cw, ch, buffer)
  {
    MulLe(w, ch, w, h);
  }

  lemma PixelsJoin(m: nat, n: nat, color: bv16)
    ensures Pixels(m, color) + Pixels(n, color) == Pixels(m + n, color)
  {
    var joined := Pixels(m, color) + Pixels(n, color);
    forall k | 0 <= k < 2 * (m + n)
      ensures joined[k] == Pixels(m + n, color)[k]
    {
      if k >= 2 * m {
        assert joined[k] == Pixels(n, color)[k - 2 * m];
        EvenShift(k, m);
      }
    }
  }

  lemma EvenShift(k: int, m: int)
    ensures (k - 2 * m) % 2 == k % 2
  {
  }

  /** `h` lines of `w` pixels are `w*h` pixels. */
  lemma {:induction false} RepeatPixels(w: nat, h: nat, color: bv16)
    ensures Repeat(Pixels(w, color), h) == Pixels(w * h, color)
  {
    if h > 0 {
      RepeatPixels(w, h - 1, color);
      assert w * h == w * (h - 1) + w;
      PixelsJoin(w * (h - 1), w, color);
    }
  }

  /** `st7735_fill_rect` sends nothing when the corner is past the right or
      bottom edge; otherwise the window of the rectangle clipped to the screen,
      then (when the line buffer is allocated) cw*ch pixels of the colour. A
      negative width sends the window only. */
  lemma FillRectSends(width: int, height: int, offset: nat, x: int, y: int, w: int, h: int, color: bv16)
    ensures x >= width || y >= height ==>
      FillRectEvents(width, height, offset, x, y, w, h, color, true) == []
      && FillRectEvents(width, height, offset, x, y, w, h, color, false) == []
    ensures x < width && y < height ==>
      FillRectEvents(width, height, offset, x, y, w, h, color, false)
        == RectWindow(offset, x, y, Clip(x, w, width), Clip(y, h, height))
    ensures x < width && y < height && w < 0 ==>
      FillRectEvents(width, height, offset, x, y, w, h, color, true) == RectWindow(offset, x, y, w, Clip(y, h, height))
    ensures x < width && y < height && 0 <= w && 0 <= h ==>
      var cw := Clip(x, w, width);
      var ch := Clip(y, h, height);
      && 0 <= cw <= w && 0 <= ch <= h && x + cw <= width && y + ch <= height
      && FillRectEvents(width, height, offset, x, y, w, h, color, true)
         == RectWindow(offset, x, y, cw, ch) + DataEvents(Pixels(cw * ch, color))
  {
    if x < width && y < height {
      var cw := Clip(x, w, width);
      var ch := Clip(y, h, height);
      assert RectWindow(offset, x, y, cw, ch) + [] == RectWindow(offset, x, y, cw, ch);
      if 0 <= w && 0 <= h {
        RepeatPixels(cw, ch, color);
      }
    }
  }

  /** `st7735_fill_screen` covers the whole screen with width*height pixels. */
  lemma FillScreenSends(width: int, height: int, offset: nat, color: bv16)
    requires 0 < width && 0 < height
    ensures FillRectEvents(width, height, offset, 0, 0, width, height, color, true)
         == RectWindow(offset, 0, 0, width, height) + DataEvents(Pixels(width * height, color))
  {
    FillRectSends(width, height, offset, 0, 0, width, height, color);
  }

  /** Byte k of visible row j is byte k of row j of the buffer. */
  lemma {:induction false} CroppedAt(buf: seq<bv8>, stride: nat, cw: nat, rows: nat, j: nat, k: nat)
    requires cw <= stride && 2 * stride * rows <= |buf| && j < rows && k < 2 * cw
    ensures 0 <= 2 * cw * j && 0 <= 2 * stride * j
    ensures 2 * cw * j + k < 2 * cw * rows && 2 * stride * j + k < |buf|
    ensures Cropped(buf, stride, cw, rows)[2 * cw * j + k] == buf[2 * stride * j + k]
  {
    MulLe(0, 0, 2 * cw, j);
    MulLe(0, 0, 2 * stride, j);
    RowBounds(stride, cw, rows);
    var prev := Cropped(buf, stride, cw, rows - 1);
    if j == rows - 1 {
      assert Cropped(buf, stride, cw, rows) == prev + buf[2 * stride * j .. 2 * stride * j + 2 * cw];
    } else {
      MulLe(stride, rows - 1, stride, rows);
      CroppedAt(buf, stride, cw, rows - 1, j, k);
    }
  }

  lemma SliceJoin(s: seq<bv8>, a: nat, b: nat)
    requires a <= b <= |s|
    ensures s[..a] + s[a..b] == s[..b]
  {
  }

  /** With nothing cut off, the visible rows are the buffer's first rows. */
  lemma {:induction false} CroppedFull(buf: seq<bv8>, w: nat, rows: nat)
    requires 2 * w * rows <= |buf|
    ensures Cropped(buf, w, w, rows) == buf[..2 * w * rows]
  {
    if rows > 0 {
      RowBounds(w, w, rows);
      CroppedFull(buf, w, rows - 1);
      SliceJoin(buf, 2 * w * (rows - 1), 2 * w * rows);
    }
  }

  /** A buffer that fits on screen is sent whole, and the corrected and the
      original clipping agree. */
  lemma BufferUnclipped(width: int, height: int, offset: nat, x: int, y: int, w: int, h: int, buffer: seq<bv8>)
    requires 0 <= w && 0 <= h && 2 * w * h <= |buffer|
    requires x + w <= width && y + h <= height
    ensures BufferEvents(width, height, offset, x, y, w, h, buffer) == BufferEventsAsWritten(width, height, offset, x, y, w, h, buffer)
    ensures x < width && y < height ==>
      BufferEvents(width, height, offset, x, y, w, h, buffer) == RectWindow(offset, x, y, w, h) + DataEvents(buffer[..2 * w * h])
  {
    if x < width && y < height {
      CroppedFull(buffer, w, h);
    }
  }

  /** Corrected clipping: after the 11 window events, data byte 2*cw*j + k is
      byte k of row j of the buffer, for every visible row j and byte k. */
  lemma BufferPixel(width: int, height: int, offset: nat, x: int, y: int, w: int, h: int, buffer: seq<bv8>,
                    cw: int, ch: int, j: nat, k: nat)
    requires 0 <= w && 0 <= h && 2 * w * h <= |buffer|
    requires x < width && y < height && cw == Clip(x, w, width) && ch == Clip(y, h, height)
    requires j < ch && k < 2 * cw
    ensures var ev := BufferEvents(width, height, offset, x, y, w, h, buffer);
      && 0 <= 2 * cw * j && 0 <= 2 * w * j
      && 11 + 2 * cw * j + k < |ev| && 2 * w * j + k < |buffer|
      && ev[11 + 2 * cw * j + k] == Data(buffer[2 * w * j + k])
  {
    MulLe(0, 0, 2 * cw, j);
    MulLe(0, 0, 2 * w, j);
    BufferClipped(width, height, offset, x, y, w, h, buffer, cw, ch);
    ClippedBufferAt(offset, x, y, w, cw, ch, buffer, j, k);
  }

  lemma ClippedBufferAt(offset: nat, x: int, y: int, w: nat, cw: nat, ch: nat, buffer: seq<bv8>, j: nat, k: nat)
    requires cw <= w && 2 * w * ch <= |buffer| && j < ch && k < 2 * cw
    ensures var ev := ClippedBuffer(offset, x, y, w, cw, ch, buffer);
      && 0 <= 2 * cw * j && 0 <= 2 * w * j
      && 11 + 2 * cw * j + k < |ev| && 2 * w * j + k < |buffer|
      && ev[11 + 2 * cw * j + k] == Data(buffer[2 * w * j + k])
  {
    MulLe(0, 0, 2 * cw, j);
    MulLe(0, 0, 2 * w, j);
    CroppedAt(buffer, w, cw, ch, j, k);
    assert |RectWindow(offset, x, y, cw, ch)| == 11;
  }

  /** As written, a 6-pixel-wide image drawn at x = 125 on a 128-pixel-wide
      screen is cut to 3 columns, and the second visible row starts with byte 6
      of the buffer (the fourth pixel of row 0) instead of byte 12 (row 1). */
  lemma BufferAsWrittenShears(offset: nat, buffer: seq<bv8>)
    requires |buffer| == 96 && buffer[6] != buffer[12]
    ensures BufferEventsAsWritten(TftWidth, TftHeight, offset, 125, 0, 6, 8, buffer)[17] == Data(buffer[6])
    ensures BufferEvents(TftWidth, TftHeight, offset, 125, 0, 6, 8, buffer)[17] == Data(buffer[12])
    ensures BufferEventsAsWritten(TftWidth, TftHeight, offset, 125, 0, 6, 8, buffer)
         != BufferEvents(TftWidth, TftHeight, offset, 125, 0, 6, 8, buffer)
  {
    assert Clip(125, 6, TftWidth) == 3 && Clip(0, 8, TftHeight) == 8;
    BufferPixel(TftWidth, TftHeight, offset, 125, 0, 6, 8, buffer, 3, 8, 1, 0);
    assert |RectWindow(offset, 125, 0, 3, 8)| == 11;
  }

  /** A character that fits on screen sends its 6x8 window and the whole image. */
  lemma CharOnScreen(width: int, height: int, offset: nat, font: seq<bv8>, x: int, y: int, ch: bv8, fg: bv16, bg: bv16)
    requires FontTable(font) && x + 6 <= width && y + 8 <= height
    ensures x < width && y < height ==>
      CharEvents(width, height, offset, font, x, y, ch, fg, bg) == RectWindow(offset, x, y, 6, 8) + DataEvents(CharImage(font, ch, fg, bg))
  {
    BufferUnclipped(width, height, offset, x, y, 6, 8, CharImage(font, ch, fg, bg));
    assert CharImage(font, ch, fg, bg)[..96] == CharImage(font, ch, fg, bg);
  }

  /** Laying out s then t from x is laying out s + t: t starts 6|s| further right. */
  lemma {:induction false} LayoutSplit(draw: (int, bv8) -> seq<Event>, x: int, s: seq<bv8>, t: seq<bv8>)
    ensures Layout(draw, x, s + t) == Layout(draw, x, s) + Layout(draw, x + 6 * |s|, t)
  {
    if |t| == 0 {
      assert s + t == s;
    } else {
      var t' := t[..|t| - 1];
      var last := draw(x + 6 * (|s| + |t| - 1), t[|t| - 1]);
      assert (s + t)[..|s + t| - 1] == s + t';
      assert (s + t)[|s + t| - 1] == t[|t| - 1];
      assert Layout(draw, x, s + t) == Layout(draw, x, s + t') + last;
      LayoutSplit(draw, x, s, t');
      assert x + 6 * |s| + 6 * (|t| - 1) == x + 6 * (|s| + |t| - 1);
      assert Layout(draw, x + 6 * |s|, t) == Layout(draw, x + 6 * |s|, t') + last;
      AppendAssoc(Layout(draw, x, s), Layout(draw, x + 6 * |s|, t'), last);
    }
  }

  /** Appending a character appends its drawing at x + 6|s|. */
  lemma LayoutSnoc(draw: (int, bv8) -> seq<Event>, x: int, s: seq<bv8>, c: bv8)
    ensures Layout(draw, x, s + [c]) == Layout(draw, x, s) + draw(x + 6 * |s|, c)
  {
    assert (s + [c])[..|s|] == s;
  }

  /** One step of the drawing loop: after the text drawn so far, drawing the
      next character at x + 6|s| gives the drawing of the longer text. */
  lemma LayoutStep(draw: (int, bv8) -> seq<Event>, x: int, cx: int, s: seq<bv8>, i: nat,
                   base: seq<Event>, before: seq<Event>, after: seq<Event>)
    requires i < |s| && cx == x + 6 * i
    requires before == base + Layout(draw, x, s[..i])
    requires after == before + draw(cx, s[i])
    ensures after == base + Layout(draw, x, s[..i + 1])
  {
    assert s[..i + 1] == s[..i] + [s[i]];
    LayoutSnoc(draw, x, s[..i], s[i]);
    AppendAssoc(base, Layout(draw, x, s[..i]), draw(cx, s[i]));
  }

  /** Character k is drawn at x + 6k, between the characters before it and
      those after it. */
  lemma LayoutAt(draw: (int, bv8) -> seq<Event>, x: int, s: seq<bv8>, k: nat)
    requires k < |s|
    ensures Layout(draw, x, s) == Layout(draw, x, s[..k]) + draw(x + 6 * k, s[k]) + Layout(draw, x + 6 * (k + 1), s[k + 1..])
  {
    assert s == s[..k + 1] + s[k + 1..];
    LayoutSplit(draw, x, s[..k + 1], s[k + 1..]);
    assert s[..k + 1][..k] == s[..k];
  }

  /** In `st7735_draw_string` each character is drawn by `st7735_draw_char`. */
  lemma CharDrawEvents(width: int, height: int, offset: nat, font: seq<bv8>, cx: int, y: int, ch: bv8, fg: bv16, bg: bv16)
    requires FontTable(font)
    ensures CharDraw(width, height, offset, font, y, fg, bg)(cx, ch) == CharEvents(width, height, offset, font, cx, y, ch, fg, bg)
  {
  }

  /** The MV (row/column exchange) bit is set exactly for the rotations that
      make the screen 160 wide, the colour order bit is always the configured
      one, and turning by two steps flips both mirror bits. */
  lemma RotationBits(m: bv8, colorMode: bv8)
    requires colorMode == 0 || colorMode == MadctlBgr
    ensures (RotationMadctl(m, colorMode) & MadctlMV != 0) <==> RotationSize(m).0 == TftHeight
    ensures RotationMadctl(m, colorMode) & MadctlBgr == colorMode
    ensures RotationMadctl(m, colorMode) ^ RotationMadctl(m + 2, colorMode) == MadctlMX | MadctlMY
    ensures RotationSize(m) == RotationSize(m + 2)
  {
  }

  /** The four rotations write four different MADCTL bytes. */
  lemma RotationsDistinct(m: bv8, m': bv8, colorMode: bv8)
    requires colorMode == 0 || colorMode == MadctlBgr
    ensures RotationMadctl(m, colorMode) == RotationMadctl(m', colorMode) <==> m % 4 == m' % 4
  {
  }

  // ---------------------------------------------------------------- the driver state

  class Display {
    var width: int
    var height: int
    const offset: nat
    const colorMode: bv8
    /** Everything sent to the panel, in order. */
    var out: seq<Event>

    ghost predicate Valid()
      reads this
    {
      && ((width == TftWidth && height == TftHeight) || (width == TftHeight && height == TftWidth))
      && (colorMode == 0 || colorMode == MadctlBgr)
    }

    /** `st7735_init`: the pins and the port are wiring; the portrait size,
        the offset and the colour order are kept. */
    constructor Init(offset: nat, isBgr: bool)
      ensures Valid() && width == TftWidth && height == TftHeight
      ensures this.offset == offset && colorMode == (if isBgr then MadctlBgr else 0) && out == []
    {
      this.offset := offset;
      width := TftWidth;
      height := TftHeight;
      colorMode := if isBgr then MadctlBgr else 0;
      out := [];
    }

    method WriteCmd(c: bv8)
      modifies this`out
      ensures out == old(out) + [Cmd(c)]
    {
      out := out + [Cmd(c)];
    }

    method WriteData(d: bv8)
      modifies this`out
      ensures out == old(out) + [Data(d)]
    {
      out := out + [Data(d)];
    }

    method WriteDataBuffer(buffer: seq<bv8>)
      modifies this`out
      ensures out == old(out) + DataEvents(buffer)
    {
      out := out + DataEvents(buffer);
    }

    /** `st7735_set_addr_window`. */
    method SetAddrWindow(x0: bv8, y0: bv8, x1: bv8, y1: bv8)
      modifies this`out
      ensures out == old(out) + Window(offset, x0, y0, x1, y1)
    {
      ghost var base := out;
      WriteCmd(Caset);
      WriteCoordinates(AddOffset(x0, offset), AddOffset(x1, offset));
      WriteCmd(Raset);
      WriteCoordinates(AddOffset(y0, offset), AddOffset(y1, offset));
      WriteCmd(Ramwr);
      WindowParts(base, offset, x0, y0, x1, y1);
    }

    /** A start and an end coordinate, each after a zero high byte. */
    method WriteCoordinates(a: bv8, b: bv8)
      modifies this`out
      ensures out == old(out) + [Data(0), Data(a), Data(0), Data(b)]
    {
      WriteData(0);
      WriteData(a);
      WriteData(0);
      WriteData(b);
    }

    /** `st7735_reset`. */
    method Reset()
      modifies this`out
      ensures out == old(out) + ResetEvents()
    {
      out := out + [ResetPin(false)];
      out := out + [Sleep(50)];
      out := out + [ResetPin(true)];
      out := out + [Sleep(50)];
    }

    /** `st7735_begin`: reset, the init table, then MADCTL with the colour order
        (InitScriptEncodes says what the table sends). */
    method Begin()
      modifies this`out
      ensures out == old(out) + BeginEvents(InitScript, colorMode)
    {
      RunInit(InitScript);
    }

    /** The body of `st7735_begin` over a given command table. */
    method RunInit(script: seq<bv8>)
      modifies this`out
      ensures out == old(out) + BeginEvents(script, colorMode)
    {
      Reset();
      var ev := Interpret(script);
      ghost var before := out;
      out := out + ev;
      WriteCmd(Madctl);
      WriteData(0xC0 | colorMode);
      assert out == before + ev + [Cmd(Madctl)] + [Data(0xC0 | colorMode)];
      assert [Cmd(Madctl)] + [Data(0xC0 | colorMode)] == [Cmd(Madctl), Data(0xC0 | colorMode)];
      AppendAssoc(before + ev, [Cmd(Madctl)], [Data(0xC0 | colorMode)]);
    }

    /** `st7735_draw_pixel`. */
    method DrawPixel(x: int, y: int, color: bv16)
      modifies this`out
      ensures out == old(out) + PixelEvents(width, height, offset, x, y, color)
    {
      if x < 0 || x >= width || y < 0 || y >= height {
        return;
      }
      SetAddrWindow(Trunc8(x), Trunc8(y), Trunc8(x), Trunc8(y));
      WriteDataBuffer([Hi(color), Lo(color)]);
    }

    /** `st7735_fill_rect`; `allocOk` says whether `malloc` succeeds. */
    method FillRect(x: int, y: int, w: int, h: int, color: bv16, allocOk: bool)
      modifies this`out
      ensures out == old(out) + FillRectEvents(width, height, offset, x, y, w, h, color, allocOk)
    {
      if x >= width || y >= height {
        return;
      }
      var cw := w;
      if x + w - 1 >= width {
        cw := width - x;
      }
      var ch := h;
      if y + h - 1 >= height {
        ch := height - y;
      }
      assert cw == Clip(x, w, width) && ch == Clip(y, h, height);
      FillClipped(x, y, cw, ch, color, allocOk);
    }

    /** `st7735_fill_rect` from the address window on. */
    method FillClipped(x: int, y: int, cw: int, ch: int, color: bv16, allocOk: bool)
      modifies this`out
      ensures out == old(out) + ClippedFill(offset, x, y, cw, ch, color, allocOk)
    {
      SetAddrWindow(Trunc8(x), Trunc8(y), Trunc8(x + cw - 1), Trunc8(y + ch - 1));
      ghost var window := RectWindow(offset, x, y, cw, ch);
      assert out == old(out) + window;
      if !allocOk || cw < 0 {
        assert out + [] == out;
        AppendAssoc(old(out), window, []);
        return;
      }
      var line := new bv8[2 * cw];
      for i := 0 to cw
        modifies line
        invariant forall k :: 0 <= k < 2 * i ==> line[k] == Pixels(cw, color)[k]
      {
        line[i * 2] := Hi(color);
        line[i * 2 + 1] := Lo(color);
      }
      assert line[..] == Pixels(cw, color);
      SendLines(line[..], ch);
      AppendAssoc(old(out), window, DataEvents(Repeat(Pixels(cw, color), ch)));
    }

    /** The second loop of `st7735_fill_rect`: the line buffer, `n` times. */
    method SendLines(line: seq<bv8>, n: int)
      modifies this`out
      ensures out == old(out) + DataEvents(Repeat(line, n))
    {
      ghost var count := if n < 0 then 0 else n;
      var j := 0;
      while j < n
        invariant 0 <= j <= count
        invariant out == old(out) + DataEvents(Repeat(line, j))
      {
        ghost var before := out;
        WriteDataBuffer(line);
        RepeatStep(old(out), before, out, line, j);
        j := j + 1;
      }
      RepeatEnd(line, j, n);
    }

    /** `st7735_fill_screen`. */
    method FillScreen(color: bv16, allocOk: bool)
      modifies this`out
      ensures out == old(out) + FillRectEvents(width, height, offset, 0, 0, width, height, color, allocOk)
      ensures Valid() && allocOk ==>
        out == old(out) + RectWindow(offset, 0, 0, width, height) + DataEvents(Pixels(TftWidth * TftHeight, color))
    {
      FillRect(0, 0, width, height, color, allocOk);
      if Valid() && allocOk {
        assert width * height == TftWidth * TftHeight;
        FillScreenSends(width, height, offset, color);
      }
    }

    /** `st7735_draw_buffer` with the clipping corrected: each visible row is
        sent from its own place in the buffer. */
    method DrawBuffer(x: int, y: int, w: int, h: int, buffer: seq<bv8>)
      requires 0 <= w && 0 <= h && 2 * w * h <= |buffer|
      modifies this`out
      ensures out == old(out) + BufferEvents(width, height, offset, x, y, w, h, buffer)
    {
      if x >= width || y >= height {
        assert out + [] == out;
        return;
      }
      var cw := w;
      if x + w - 1 >= width {
        cw := width - x;
      }
      var ch := h;
      if y + h - 1 >= height {
        ch := height - y;
      }
      BufferClipped(width, height, offset, x, y, w, h, buffer, cw, ch);
      DrawClipped(x, y, w, cw, ch, buffer);
    }

    /** `st7735_draw_buffer` from the address window on. */
    method DrawClipped(x: int, y: int, w: nat, cw: nat, ch: nat, buffer: seq<bv8>)
      requires cw <= w && 2 * w * ch <= |buffer|
      modifies this`out
      ensures out == old(out) + ClippedBuffer(offset, x, y, w, cw, ch, buffer)
    {
      SetAddrWindow(Trunc8(x), Trunc8(y), Trunc8(x + cw - 1), Trunc8(y + ch - 1));
      ghost var window := RectWindow(offset, x, y, cw, ch);
      assert out == old(out) + window;
      SendRows(buffer, w, cw, ch);
      AppendAssoc(old(out), window, DataEvents(Cropped(buffer, w, cw, ch)));
    }

    /** Row by row, the visible part of a buffer of row stride `stride`. */
    method SendRows(buffer: seq<bv8>, stride: nat, cw: nat, rows: nat)
      requires cw <= stride && 2 * stride * rows <= |buffer|
      modifies this`out
      ensures out == old(out) + DataEvents(Cropped(buffer, stride, cw, rows))
    {
      for j := 0 to rows
        invariant out == old(out) + DataEvents(Cropped(buffer, stride, cw, j))
      {
        RowSlice(stride, cw, j, rows, |buffer|);
        var start := 2 * stride * j;
        var row := buffer[start .. start + 2 * cw];
        ghost var before := out;
        WriteDataBuffer(row);
        CroppedStep(old(out), before, out, buffer, stride, cw, j, start);
      }
    }

    /** `st7735_draw_char` over `font5x7`. */
    method DrawChar(x: int, y: int, ch: bv8, fg: bv16, bg: bv16)
      modifies this`out
      ensures out == old(out) + CharEvents(width, height, offset, Font, x, y, ch, fg, bg)
    {
      FontSize();
      DrawGlyph(Font, x, y, ch, fg, bg);
    }

    /** `st7735_draw_char` with font table `font`. */
    method DrawGlyph(font: seq<bv8>, x: int, y: int, ch: bv8, fg: bv16, bg: bv16)
      requires FontTable(font)
      modifies this`out
      ensures out == old(out) + CharEvents(width, height, offset, font, x, y, ch, fg, bg)
    {
      var image := Rasterize(font, ch, fg, bg);
      DrawBuffer(x, y, 6, 8, image);
    }

    /** `st7735_draw_string` over `font5x7`: characters up to the terminating
        NUL, advancing six pixels each. */
    method DrawString(x: int, y: int, str: seq<bv8>, fg: bv16, bg: bv16)
      modifies this`out
      ensures out == old(out) + StringEvents(width, height, offset, Font, x, y, str[..StrLen(str)], fg, bg)
    {
      FontSize();
      DrawText(Font, x, y, str, fg, bg);
    }

    /** `st7735_draw_string` with font table `font`. */
    method DrawText(font: seq<bv8>, x: int, y: int, str: seq<bv8>, fg: bv16, bg: bv16)
      requires FontTable(font)
      modifies this`out
      ensures out == old(out) + StringEvents(width, height, offset, font, x, y, str[..StrLen(str)], fg, bg)
    {
      ghost var base := out;
      ghost var draw := CharDraw(width, height, offset, font, y, fg, bg);
      var cx := x;
      var i := 0;
      while i < |str| && str[i] != 0
        invariant 0 <= i <= StrLen(str)
        invariant cx == x + 6 * i
        invariant out == base + Layout(draw, x, str[..i])
      {
        DrawNext(font, draw, x, cx, y, str, i, fg, bg, base);
        cx := cx + 6;
        i := i + 1;
      }
    }

    /** One pass of the loop of `st7735_draw_string`: character i at x + 6i,
        after the characters before it. */
    method DrawNext(font: seq<bv8>, ghost draw: (int, bv8) -> seq<Event>, x: int, cx: int, y: int, str: seq<bv8>, i: nat,
                    fg: bv16, bg: bv16, ghost base: seq<Event>)
      requires FontTable(font) && i < |str| && cx == x + 6 * i && draw == CharDraw(width, height, offset, font, y, fg, bg)
      requires out == base + Layout(draw, x, str[..i])
      modifies this`out
      ensures out == base + Layout(draw, x, str[..i + 1])
    {
      ghost var before := out;
      DrawGlyph(font, cx, y, str[i], fg, bg);
      CharDrawEvents(width, height, offset, font, cx, y, str[i], fg, bg);
      LayoutStep(draw, x, cx, str, i, base, before, out);
    }

    /** `st7735_set_rotation`. */
    method SetRotation(m: bv8)
      modifies this
      ensures out == old(out) + [Cmd(Madctl), Data(RotationMadctl(m, colorMode))]
      ensures (width, height) == RotationSize(m)
      ensures old(Valid()) ==> Valid()
    {
      WriteCmd(Madctl);
      var rotation := m % 4;
      if rotation == 0 {
        WriteData(MadctlMX | MadctlMY | colorMode);
        width, height := TftWidth, TftHeight;
      } else if rotation == 1 {
        WriteData(MadctlMY | MadctlMV | colorMode);
        width, height := TftHeight, TftWidth;
      } else if rotation == 2 {
        WriteData(colorMode);
        width, height := TftWidth, TftHeight;
      } else {
        WriteData(MadctlMX | MadctlMV | colorMode);
        width, height := TftHeight, TftWidth;
      }
    }
  }
}
