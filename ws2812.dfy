/** A WS2812 LED strip (src/hal/leds/ws2812.c): a heap buffer of three bytes per
    pixel, stored red, green, blue, and the stream of 32-bit FIFO words that
    `ws2812_show` sends to the PIO state machine, which wants 0xGGRRBB00. */
module Ws2812 {
  const MaxLeds := 65536

  /** Bytes 2, 1 and 0 of a word, as the `(uint8_t)` casts of `color >> 16`,
      `color >> 8` and `color` produce them. */
  function Byte2(c: bv32): bv8 { ((c >> 16) & 0xFF) as bv8 }
  function Byte1(c: bv32): bv8 { ((c >> 8) & 0xFF) as bv8 }
  function Byte0(c: bv32): bv8 { (c & 0xFF) as bv8 }

  /** Three bytes packed as 0x00HHMMLL. */
  function Pack(hi: bv8, mid: bv8, lo: bv8): bv32
  {
    ((hi as bv32) << 16) | ((mid as bv32) << 8) | (lo as bv32)
  }

  /** Unpacking a packed word gives back its three bytes, and its top byte is zero. */
  lemma UnpackPack(hi: bv8, mid: bv8, lo: bv8)
    ensures Pack(hi, mid, lo) & 0xFF00_0000 == 0
    ensures Byte2(Pack(hi, mid, lo)) == hi && Byte1(Pack(hi, mid, lo)) == mid && Byte0(Pack(hi, mid, lo)) == lo
  {
  }

  /** Splitting a word into its low three bytes and packing them again keeps
      exactly the low 24 bits. */
  lemma PackBytes(c: bv32)
    ensures Pack(Byte2(c), Byte1(c), Byte0(c)) == c & 0xFF_FFFF
  {
  }

  predicate Covers(p: seq<bv8>, led: nat)
  {
    3 * led + 2 < |p|
  }

  /** The buffer after writing three bytes at pixel `led`; out of range it is unchanged. */
  function WritePixel(p: seq<bv8>, led: nat, b0: bv8, b1: bv8, b2: bv8): (q: seq<bv8>)
    ensures |q| == |p|
    ensures Covers(p, led) ==> q[3 * led] == b0 && q[3 * led + 1] == b1 && q[3 * led + 2] == b2
    ensures forall i :: 0 <= i < |p| && (i < 3 * led || 3 * led + 2 < i) ==> q[i] == p[i]
    ensures !Covers(p, led) ==> q == p
  {
    if Covers(p, led) then p[3 * led := b0][3 * led + 1 := b1][3 * led + 2 := b2] else p
  }

  /** `ws2812_get_pixel_color` on a buffer of |p|/3 pixels: the pixel packed as
      0x00RRGGBB, or 0 out of range. */
  function ColorAt(p: seq<bv8>, led: nat): (c: bv32)
    ensures c & 0xFF00_0000 == 0
    ensures !Covers(p, led) ==> c == 0
    ensures Covers(p, led) ==> Byte2(c) == p[3 * led] && Byte1(c) == p[3 * led + 1] && Byte0(c) == p[3 * led + 2]
  {
    if Covers(p, led) then
      UnpackPack(p[3 * led], p[3 * led + 1], p[3 * led + 2]);
      Pack(p[3 * led], p[3 * led + 1], p[3 * led + 2])
    else 0
  }

  /** `ws2812_get_pixel_color` as written: the offset is stored in a `uint16_t`,
      so `led * 3` wraps modulo 65536. */
  function ColorAtAsWritten(p: seq<bv8>, numLeds: nat, led: nat): bv32
    requires |p| == 3 * numLeds && numLeds < MaxLeds
  {
    var ofs := (led * 3) % 0x1_0000;
    if led < numLeds && ofs + 2 < |p| then Pack(p[ofs], p[ofs + 1], p[ofs + 2]) else 0
  }

  /** On every strip shorter than 21846 pixels the truncated offset does not matter. */
  lemma ColorAtAsWrittenShortStrip(p: seq<bv8>, numLeds: nat, led: nat)
    requires |p| == 3 * numLeds && numLeds <= 21845
    ensures ColorAtAsWritten(p, numLeds, led) == ColorAt(p, led)
  {
  }

  /** On a strip of 21847 pixels the last pixel is read from offset 2, not 65538. */
  lemma ColorAtAsWrittenWraps(p: seq<bv8>)
    requires |p| == 3 * 21847
    requires p[2] == 1 && p[65538] == 0
    ensures ColorAtAsWritten(p, 21847, 21846) != ColorAt(p, 21846)
  {
    assert (21846 * 3) % 0x1_0000 == 2;
    assert Byte2(ColorAtAsWritten(p, 21847, 21846)) == 1;
    assert Byte2(ColorAt(p, 21846)) == 0;
  }

  /** Packing then unpacking through the buffer: `get_pixel_color` after
      `set_pixel_color_packed` gives the colour's low 24 bits. */
  lemma PackedRoundTrip(p: seq<bv8>, led: nat, color: bv32)
    requires Covers(p, led)
    ensures ColorAt(WritePixel(p, led, Byte2(color), Byte1(color), Byte0(color)), led) == color & 0xFF_FFFF
  {
    PackBytes(color);
  }

  /** The bytes `set_pixel_color_rgb` stores, (green, red, blue), read back by
      `get_pixel_color`: red and green come out swapped. */
  lemma RgbAsWrittenReadBack(p: seq<bv8>, led: nat, red: bv8, green: bv8, blue: bv8)
    requires Covers(p, led)
    ensures ColorAt(WritePixel(p, led, green, red, blue), led) == Pack(green, red, blue)
    ensures red != green ==> ColorAt(WritePixel(p, led, green, red, blue), led) != Pack(red, green, blue)
  {
    var c := ColorAt(WritePixel(p, led, green, red, blue), led);
    assert Byte2(c) == green;
    UnpackPack(red, green, blue);
  }

  /** With bytes stored (red, green, blue), the read back is the packed colour. */
  lemma RgbRoundTrip(p: seq<bv8>, led: nat, red: bv8, green: bv8, blue: bv8)
    requires Covers(p, led)
    ensures ColorAt(WritePixel(p, led, red, green, blue), led) == Pack(red, green, blue)
  {
  }

  /** Writing one pixel leaves the colour of every other pixel as it was. */
  lemma WritePixelFrame(p: seq<bv8>, led: nat, other: nat, b0: bv8, b1: bv8, b2: bv8)
    requires other != led
    ensures ColorAt(WritePixel(p, led, b0, b1, b2), other) == ColorAt(p, other)
  {
    var q := WritePixel(p, led, b0, b1, b2);
    if Covers(p, other) {
      assert other < led || led < other;
      assert q[3 * other] == p[3 * other];
      assert q[3 * other + 1] == p[3 * other + 1];
      assert q[3 * other + 2] == p[3 * other + 2];
    }
  }

  /** The FIFO word for pixel i: green, red, blue in bits 31-8. */
  function Word(p: seq<bv8>, i: nat): bv32
    requires Covers(p, i)
  {
    Pack(p[3 * i + 1], p[3 * i], p[3 * i + 2]) << 8
  }

  /** Every word has a zero low byte and carries bytes 3i+1, 3i and 3i+2 in
      bytes 3, 2 and 1. */
  lemma WordLayout(p: seq<bv8>, i: nat)
    requires Covers(p, i)
    ensures Word(p, i) & 0xFF == 0
    ensures ((Word(p, i) >> 24) & 0xFF) as bv8 == p[3 * i + 1]
    ensures ((Word(p, i) >> 16) & 0xFF) as bv8 == p[3 * i]
    ensures ((Word(p, i) >> 8) & 0xFF) as bv8 == p[3 * i + 2]
  {
    UnpackPack(p[3 * i + 1], p[3 * i], p[3 * i + 2]);
  }

  /** After filling with (red, green, blue) every word carries green, red, blue
      from the top byte down, the order the LEDs expect. */
  lemma FilledWord(p: seq<bv8>, i: nat, red: bv8, green: bv8, blue: bv8)
    requires Covers(p, i) && p[3 * i] == red && p[3 * i + 1] == green && p[3 * i + 2] == blue
    ensures ((Word(p, i) >> 24) & 0xFF) as bv8 == green
    ensures ((Word(p, i) >> 16) & 0xFF) as bv8 == red
    ensures ((Word(p, i) >> 8) & 0xFF) as bv8 == blue
  {
    WordLayout(p, i);
  }

  /** A strip: `numLEDs` and the `pixels` buffer, with the pin, PIO block and
      state machine it was set up with. A NULL buffer is an empty array. */
  class Strip {
    var numLeds: nat
    var pixels: array<bv8>
    var pin: bv8
    var pio: nat
    var sm: int

    ghost predicate Valid()
      reads this
    {
      numLeds < MaxLeds && pixels.Length == 3 * numLeds
    }

    /** `ws2812_init(ws, num, pin, pio, sm)`; `allocOk` says whether `calloc` succeeded. */
    constructor Init(num: nat, pin: bv8, pio: nat, sm: int, allocOk: bool)
      requires num < MaxLeds
      ensures Valid() && fresh(pixels)
      ensures numLeds == (if allocOk then num else 0)
      ensures forall i :: 0 <= i < pixels.Length ==> pixels[i] == 0
      ensures this.pin == pin && this.pio == pio && this.sm == sm
    {
      numLeds := if allocOk then num else 0;
      pixels := new bv8[if allocOk then 3 * num else 0](_ => 0);
      this.pin, this.pio, this.sm := pin, pio, sm;
    }

    /** `ws2812_alloc(ws, num)`: a zeroed buffer of `num` pixels, or none at all. */
    method Alloc(num: nat, allocOk: bool)
      requires num < MaxLeds
      modifies this
      ensures Valid() && fresh(pixels)
      ensures numLeds == (if allocOk then num else 0)
      ensures forall i :: 0 <= i < pixels.Length ==> pixels[i] == 0
      ensures pin == old(pin) && pio == old(pio) && sm == old(sm)
    {
      pixels := new bv8[if allocOk then 3 * num else 0](_ => 0);
      numLeds := if allocOk then num else 0;
    }

    /** `ws2812_update_length(ws, num)`: the old buffer is released and a new one allocated. */
    method UpdateLength(num: nat, allocOk: bool)
      requires num < MaxLeds
      modifies this
      ensures Valid() && fresh(pixels)
      ensures numLeds == (if allocOk then num else 0)
      ensures forall i :: 0 <= i < pixels.Length ==> pixels[i] == 0
      ensures pin == old(pin) && pio == old(pio) && sm == old(sm)
    {
      Alloc(num, allocOk);
    }

    /** `ws2812_deinit`: no buffer and no pixels. */
    method Deinit()
      modifies this
      ensures Valid() && numLeds == 0 && pixels.Length == 0
      ensures pin == old(pin) && pio == old(pio) && sm == old(sm)
    {
      pixels := new bv8[0];
      numLeds := 0;
    }

    /** `ws2812_set_pixel_color_rgb` as written: stores (green, red, blue). */
    method SetPixelColorRgbAsWritten(led: nat, red: bv8, green: bv8, blue: bv8)
      requires Valid()
      modifies pixels
      ensures Valid()
      ensures pixels[..] == WritePixel(old(pixels[..]), led, green, red, blue)
      ensures led < numLeds ==> GetPixelColor(led) == Pack(green, red, blue)
    {
      if led < numLeds {
        pixels[led * 3] := green;
        pixels[led * 3 + 1] := red;
        pixels[led * 3 + 2] := blue;
      }
      if led < numLeds {
        RgbAsWrittenReadBack(old(pixels[..]), led, red, green, blue);
      }
    }

    /** `ws2812_set_pixel_color_rgb` storing (red, green, blue) like the rest of the driver. */
    method SetPixelColorRgb(led: nat, red: bv8, green: bv8, blue: bv8)
      requires Valid()
      modifies pixels
      ensures Valid()
      ensures pixels[..] == WritePixel(old(pixels[..]), led, red, green, blue)
      ensures led < numLeds ==> GetPixelColor(led) == Pack(red, green, blue)
    {
      if led < numLeds {
        pixels[led * 3] := red;
        pixels[led * 3 + 1] := green;
        pixels[led * 3 + 2] := blue;
      }
    }

    /** `ws2812_set_pixel_color_packed`: bytes 2, 1, 0 of the colour. */
    method SetPixelColorPacked(led: nat, color: bv32)
      requires Valid()
      modifies pixels
      ensures Valid()
      ensures pixels[..] == WritePixel(old(pixels[..]), led, Byte2(color), Byte1(color), Byte0(color))
      ensures led < numLeds ==> GetPixelColor(led) == color & 0xFF_FFFF
    {
      if led < numLeds {
        pixels[led * 3] := Byte2(color);
        pixels[led * 3 + 1] := Byte1(color);
        pixels[led * 3 + 2] := Byte0(color);
      }
      if led < numLeds {
        PackedRoundTrip(old(pixels[..]), led, color);
      }
    }

    /** `ws2812_clear`: all 3*numLEDs bytes become zero. */
    method Clear()
      requires Valid()
      modifies pixels
      ensures Valid()
      ensures forall i :: 0 <= i < pixels.Length ==> pixels[i] == 0
      ensures forall led: nat :: led < numLeds ==> GetPixelColor(led) == 0
    {
      forall i | 0 <= i < pixels.Length {
        pixels[i] := 0;
      }
    }

    /** `ws2812_fill_pixel_color`: every pixel becomes (red, green, blue). */
    method Fill(red: bv8, green: bv8, blue: bv8)
      requires Valid()
      modifies pixels
      ensures Valid()
      ensures forall led :: 0 <= led < numLeds ==>
        pixels[3 * led] == red && pixels[3 * led + 1] == green && pixels[3 * led + 2] == blue
      ensures forall led: nat :: led < numLeds ==> GetPixelColor(led) == Pack(red, green, blue)
    {
      for i := 0 to numLeds
        invariant forall led :: 0 <= led < i ==>
          pixels[3 * led] == red && pixels[3 * led + 1] == green && pixels[3 * led + 2] == blue
      {
        pixels[i * 3] := red;
        pixels[i * 3 + 1] := green;
        pixels[i * 3 + 2] := blue;
      }
    }

    /** `ws2812_get_pixel_color` with the offset computed without truncation. */
    function GetPixelColor(led: nat): (c: bv32)
      reads this, pixels
      requires Valid()
      ensures c == ColorAt(pixels[..], led)
      ensures led >= numLeds ==> c == 0
    {
      if led < numLeds then Pack(pixels[led * 3], pixels[led * 3 + 1], pixels[led * 3 + 2]) else 0
    }

    /** `ws2812_get_pixel_color` as written, with the 16-bit offset. */
    function GetPixelColorAsWritten(led: nat): (c: bv32)
      reads this, pixels
      requires Valid() && led < MaxLeds
      ensures c == ColorAtAsWritten(pixels[..], numLeds, led)
    {
      var ofs := (led * 3) % 0x1_0000;
      if led < numLeds && ofs + 2 < pixels.Length then Pack(pixels[ofs], pixels[ofs + 1], pixels[ofs + 2]) else 0
    }

    /** `ws2812_show`: the words pushed into the FIFO, one per pixel, in pixel order. */
    method Show() returns (words: seq<bv32>)
      requires Valid()
      ensures |words| == numLeds
      ensures forall i :: 0 <= i < numLeds ==> Covers(pixels[..], i) && words[i] == Word(pixels[..], i)
    {
      words := [];
      for i := 0 to numLeds
        invariant |words| == i
        invariant forall k :: 0 <= k < i ==> Covers(pixels[..], k) && words[k] == Word(pixels[..], k)
      {
        var red := pixels[i * 3];
        var green := pixels[i * 3 + 1];
        var blue := pixels[i * 3 + 2];
        var colorData := ((green as bv32) << 16) | ((red as bv32) << 8) | (blue as bv32);
        words := words + [colorData << 8];
      }
    }
  }
}
