/** What the texture formats mean: packed fields, their place in the source, the size of a level, and the tint. */
module PixelFormats {
  import opened Arithmetic
  import opened Common
  import opened TextureLayout
  import opened PlayerColor

  // ---- packed fields ----

  /** `c` is the field `v`, which runs to `max`, on the scale of a byte, rounded down. */
  predicate Scaled(v: nat, max: nat, c: Byte) { max * c <= 255 * v < max * (c + 1) }

  /** The ends of the field are the ends of the byte, and a larger field gives no smaller byte. */
  lemma ScaledEnds(v: nat, max: nat, c: Byte, v': nat, c': Byte)
    requires 0 < v <= max && v' <= v && Scaled(v, max, c) && Scaled(v', max, c')
    ensures (v' == 0 ==> c' == 0) && (v == max ==> c == 255) && c' <= c
  {
    if v' == 0 && c' > 0 { MulMono(1, c', max); }
    if v == max && c < 255 { MulMono(c + 1, 255, max); }
    if c' > c { MulMono(c + 1, c', max); }
  }

  lemma ScaleDown(v: nat)
    ensures v < 32 ==> v * 255 / 31 < 256 && Scaled(v, 31, v * 255 / 31)
    ensures v < 64 ==> v * 255 / 63 < 256 && Scaled(v, 63, v * 255 / 63)
    ensures v < 8 ==> v * 255 / 7 < 256 && Scaled(v, 7, v * 255 / 7)
    ensures v < 16 ==> Scaled(v, 15, v * 17)
  {}

  /** The field of `size` values above `low`, which has `unit` values. */
  lemma Field(high: nat, v: nat, low: nat, size: nat, unit: nat)
    requires v < size && low < unit
    ensures var packed := (high * size + v) * unit + low; packed / unit % size == v
  {
    DivModOf(high * size + v, low, unit);
    DivModOf(high, v, size);
  }

  /** Five bits of red, six of green, five of blue, from the top; always opaque. */
  lemma Rgb565Fields(r: nat, g: nat, b: nat)
    requires r < 32 && g < 64 && b < 32
    ensures var p := Rgb565(r * 2048 + g * 32 + b);
            Scaled(r, 31, p.r) && Scaled(g, 63, p.g) && Scaled(b, 31, p.b) && p.a == 255
  {
    hide Scaled;
    Field(0, r, g * 32 + b, 32, 2048);
    Field(r, g, b, 64, 32);
    Field(r * 64 + g, b, 0, 32, 1);
    ScaleDown(r);
    ScaleDown(g);
    ScaleDown(b);
  }

  /** With the top bit set: five bits each of red, green and blue, opaque. */
  lemma Rgb5a3Opaque(r: nat, g: nat, b: nat)
    requires r < 32 && g < 32 && b < 32
    ensures var p := Rgb5a3(32768 + r * 1024 + g * 32 + b);
            Scaled(r, 31, p.r) && Scaled(g, 31, p.g) && Scaled(b, 31, p.b) && p.a == 255
  {
    hide Scaled;
    Field(0, 1, r * 1024 + g * 32 + b, 2, 32768);
    Field(1, r, g * 32 + b, 32, 1024);
    Field(32 + r, g, b, 32, 32);
    Field((32 + r) * 32 + g, b, 0, 32, 1);
    ScaleDown(r);
    ScaleDown(g);
    ScaleDown(b);
  }

  /** Without it: three bits of alpha, then four each of red, green and blue. */
  lemma Rgb5a3Clear(a: nat, r: nat, g: nat, b: nat)
    requires a < 8 && r < 16 && g < 16 && b < 16
    ensures var p := Rgb5a3(a * 4096 + r * 256 + g * 16 + b);
            Scaled(r, 15, p.r) && Scaled(g, 15, p.g) && Scaled(b, 15, p.b) && Scaled(a, 7, p.a)
  {
    hide Scaled;
    Field(0, 0, a * 4096 + r * 256 + g * 16 + b, 2, 32768);
    Field(0, a, r * 256 + g * 16 + b, 8, 4096);
    Field(a, r, g * 16 + b, 16, 256);
    Field(a * 16 + r, g, b, 16, 16);
    Field((a * 16 + r) * 16 + g, b, 0, 16, 1);
    ScaleDown(a);
    ScaleDown(r);
    ScaleDown(g);
    ScaleDown(b);
  }

  // ---- where a pixel is read ----

  /** The number that two bytes stand for. */
  function Joined(high: int, low: int): int { high * 256 + low }

  /** Where the word of a pixel starts: its tile, then its row and column there. */
  function WordStart(columns: nat, tx: nat, ty: nat, cx: nat, cy: nat): nat {
    ((ty * columns + tx) * 16 + cy * 4 + cx) * 2
  }

  /** Where a CMPR block starts: its tile, then its row and column there. */
  function BlockStart(columns: nat, tx: nat, ty: nat, sx: nat, sy: nat): nat {
    ((ty * columns + tx) * 4 + sy * 2 + sx) * 8
  }

  /** The two bytes of pixel (4 tx + cx, 4 ty + cy) of a 16-bit texture: tiles of 16 pixels in reading order, pixels in
      reading order within a tile, the high byte first. */
  lemma ReadsWord(source: seq<Byte>, format: nat, base: nat, w: nat, h: nat, tx: nat, ty: nat, cx: nat, cy: nat)
    requires format == RGB565 || format == RGB5A3
    requires cx < 4 && cy < 4 && 4 * tx + cx < w && 4 * ty + cy < h && base + LevelBytes(format, w, h) <= |source|
    ensures var o := base + WordStart(Tiles(w, 4), tx, ty, cx, cy);
            && o + 1 < |source|
            && var v := Joined(source[o], source[o + 1]);
               0 <= v < 65536 &&
               Decode(source, format, base, w, h, 4 * tx + cx, 4 * ty + cy) ==
               if format == RGB565 then Rgb565(v) else Rgb5a3(v)
  {
    hide Tiles, LevelBytes, Rgb565, Rgb5a3, TileOf, Slot, WordStart;
    PixelInLevel(format, w, h, 4 * tx + cx, 4 * ty + cy);
    WordAt(Tiles(w, 4), tx, ty, cx, cy);
  }

  lemma WordAt(columns: nat, tx: nat, ty: nat, cx: nat, cy: nat)
    requires cx < 4 && cy < 4
    ensures var x := 4 * tx + cx;
            var y := 4 * ty + cy;
            WordStart(columns, tx, ty, cx, cy) == TileOf(columns, x, y) * 32 + 2 * Slot(x, y)
  {
    var x := 4 * tx + cx;
    var y := 4 * ty + cy;
    assert x / 4 == tx && y / 4 == ty && x % 4 == cx && y % 4 == cy;
  }

  predicate Selectors(row: seq<nat>) { |row| == 4 && row[0] < 4 && row[1] < 4 && row[2] < 4 && row[3] < 4 }

  function RowByte(row: seq<nat>): nat
    requires Selectors(row)
  {
    row[0] * 64 + row[1] * 16 + row[2] * 4 + row[3]
  }

  /** The selector of pixel (8 tx + 4 sx + cx, 8 ty + 4 sy + cy) of a CMPR texture, whose row of four selectors is one
      byte with the leftmost on top. Tiles of four blocks and blocks of 4x4 pixels are in reading order. */
  lemma ReadsSelector(source: seq<Byte>, base: nat, w: nat, h: nat, tx: nat, ty: nat, sx: nat, sy: nat, cx: nat,
                      cy: nat, row: seq<nat>)
    requires sx < 2 && sy < 2 && cx < 4 && cy < 4
    requires 8 * tx + 4 * sx + cx < w && 8 * ty + 4 * sy + cy < h && base + LevelBytes(CMPR, w, h) <= |source|
    requires Selectors(row)
    ensures var o := base + BlockStart(Tiles(w, 8), tx, ty, sx, sy);
            && o + 8 <= |source|
            && (source[o + 4 + cy] == RowByte(row) ==>
                  Decode(source, CMPR, base, w, h, 8 * tx + 4 * sx + cx, 8 * ty + 4 * sy + cy) ==
                  PaletteEntry(source, o, row[cx]))
  {
    hide Tiles, LevelBytes, PaletteEntry, BlockOf, Selector;
    var x := 8 * tx + 4 * sx + cx;
    var y := 8 * ty + 4 * sy + cy;
    PixelInLevel(CMPR, w, h, x, y);
    BlockAt(Tiles(w, 8), tx, ty, sx, sy, cx, cy);
    var o := base + BlockOf(Tiles(w, 8), x, y);
    if source[o + 4 + cy] == RowByte(row) { SelectorAt(source, o, x, y, row); }
  }

  lemma EightFold(t: nat, s: nat, c: nat)
    requires s < 2 && c < 4
    ensures var x := 8 * t + 4 * s + c; x / 8 == t && x % 8 / 4 == s && x % 4 == c
  {}

  lemma BlockAt(columns: nat, tx: nat, ty: nat, sx: nat, sy: nat, cx: nat, cy: nat)
    requires sx < 2 && sy < 2 && cx < 4 && cy < 4
    ensures var x := 8 * tx + 4 * sx + cx;
            var y := 8 * ty + 4 * sy + cy;
            BlockOf(columns, x, y) == BlockStart(columns, tx, ty, sx, sy) && x % 4 == cx && y % 4 == cy
  {
    hide BlockOf, BlockStart;
    EightFold(tx, sx, cx);
    EightFold(ty, sy, cy);
    BlockParts(columns, 8 * tx + 4 * sx + cx, 8 * ty + 4 * sy + cy, tx, ty, sx, sy);
  }

  lemma BlockParts(columns: nat, x: nat, y: nat, tx: nat, ty: nat, sx: nat, sy: nat)
    requires x / 8 == tx && y / 8 == ty && x % 8 / 4 == sx && y % 8 / 4 == sy
    ensures BlockOf(columns, x, y) == BlockStart(columns, tx, ty, sx, sy)
  {}

  lemma SelectorAt(source: seq<Byte>, o: nat, x: nat, y: nat, row: seq<nat>)
    requires Selectors(row) && o + 8 <= |source| && source[o + 4 + y % 4] == RowByte(row)
    ensures Selector(source, o, x, y) == row[x % 4]
  {
    var (a, b, c, d) := (row[0], row[1], row[2], row[3]);
    Field(0, a, b * 16 + c * 4 + d, 4, 64);
    Field(a, b, c * 4 + d, 4, 16);
    Field(a * 4 + b, c, d, 4, 4);
    Field((a * 4 + b) * 4 + c, d, 0, 4, 1);
  }

  // ---- the palette of a block ----

  /** `v` is the value a third of the way from `near` to `far`, rounded down. */
  predicate ThirdOfTheWay(v: Byte, near: Byte, far: Byte) { 3 * v <= 2 * near + far < 3 * (v + 1) }

  predicate Halfway(v: Byte, one: Byte, other: Byte) { 2 * v <= one + other < 2 * (v + 1) }

  /** Colour `t` lies a third of the way from `p` to `q`. */
  predicate Third(t: Pixel, p: Pixel, q: Pixel) {
    ThirdOfTheWay(t.r, p.r, q.r) && ThirdOfTheWay(t.g, p.g, q.g) && ThirdOfTheWay(t.b, p.b, q.b)
  }

  predicate Mean(t: Pixel, p: Pixel, q: Pixel) {
    Halfway(t.r, p.r, q.r) && Halfway(t.g, p.g, q.g) && Halfway(t.b, p.b, q.b)
  }

  lemma BetweenColors(p: Pixel, q: Pixel)
    ensures Third(Pixel((2 * p.r + q.r) / 3, (2 * p.g + q.g) / 3, (2 * p.b + q.b) / 3, 255), p, q)
    ensures Third(Pixel((p.r + 2 * q.r) / 3, (p.g + 2 * q.g) / 3, (p.b + 2 * q.b) / 3, 255), q, p)
    ensures Mean(Pixel((p.r + q.r) / 2, (p.g + q.g) / 2, (p.b + q.b) / 2, 255), p, q)
  {}

  /** The first two entries are the colours of the block's words. If the first word is larger, the other two lie a
      third of the way from either; if not, there is one halfway and a transparent black. */
  lemma PaletteColors(source: seq<Byte>, o: nat)
    requires o + 8 <= |source|
    ensures var first := Joined(source[o], source[o + 1]);
            var second := Joined(source[o + 2], source[o + 3]);
            var (p, q, t, u) := (PaletteEntry(source, o, 0), PaletteEntry(source, o, 1),
                                 PaletteEntry(source, o, 2), PaletteEntry(source, o, 3));
            && 0 <= first < 65536 && 0 <= second < 65536
            && p == Rgb565(first) && q == Rgb565(second)
            && (first > second ==> Third(t, p, q) && Third(u, q, p) && t.a == u.a == 255)
            && (first <= second ==> Mean(t, p, q) && t.a == 255 && u == Pixel(0, 0, 0, 0))
  {
    hide Rgb565, Third, Mean;
    BetweenColors(PaletteEntry(source, o, 0), PaletteEntry(source, o, 1));
  }

  // ---- the size of a level ----

  /** A texture has a size if it has one to 2048 pixels each way, one to 12 levels, and one of the four formats. */
  lemma SupportedExactly(format: nat, w: nat, h: nat, mips: nat)
    ensures TextureSize(format, w, h, mips) != 0 <==>
            1 <= w <= 2048 && 1 <= h <= 2048 && 1 <= mips <= 12 &&
            (format == 4 || format == 5 || format == 6 || format == 14)
  {
    hide TextureSize;
    TextureNotEmpty(format, w, h, mips);
  }

  function Bits(format: nat): nat { if format == RGBA8 then 32 else if format == CMPR then 4 else 16 }

  /** The tiles cover the size, and none of them is empty. */
  lemma TilesFit(size: nat, tile: nat)
    requires tile == 4 || tile == 8
    ensures var n := Tiles(size, tile); size <= tile * n && (size > 0 ==> tile * (n - 1) < size)
  {}

  /** A level takes the bits of its pixels, those of its whole tiles. */
  lemma LevelHolds(format: nat, w: nat, h: nat)
    requires Supported(format)
    ensures var t := TileSize(format);
            8 * LevelBytes(format, w, h) == (t * Tiles(w, t)) * (t * Tiles(h, t)) * Bits(format)
  {
    hide Tiles;
    var t := TileSize(format);
    var a, b := Tiles(w, t), Tiles(h, t);
    assert (t * a) * (t * b) == (t * t) * (a * b) by { Rearrange(t, a, b); }
    if format == CMPR {
      assert t * t * (a * b) * 4 == 256 * (a * b);
    } else {
      assert t * t * (a * b) == 16 * (a * b);
    }
  }

  lemma Rearrange(t: nat, a: nat, b: nat)
    ensures (t * a) * (t * b) == (t * t) * (a * b)
  {
    assert (t * a) * (t * b) == t * (a * (t * b));
    assert a * (t * b) == t * (a * b);
    assert t * (t * (a * b)) == (t * t) * (a * b);
  }

  function PowerOf2(m: nat): (p: nat)
    ensures p > 0
  {
    if m == 0 then 1 else 2 * PowerOf2(m - 1)
  }

  /** Each level has half the size of the one before it, rounded down, and at least one pixel. */
  lemma {:induction false} MipSizeHalves(size: nat, m: nat)
    requires size > 0
    ensures var r := MipSize(size, m);
            var p := PowerOf2(m);
            if size < p then r == 1 else r * p <= size < (r + 1) * p
    decreases m
  {
    hide Half;
    if m != 0 {
      MipSizeHalves(Half(size), m - 1);
      Halves(size);
      Twice(MipSize(size, m), PowerOf2(m - 1));
    }
  }

  lemma Halves(size: nat)
    ensures if size < 2 then Half(size) == 1 else 2 * Half(size) <= size <= 2 * Half(size) + 1
  {}

  lemma Twice(r: nat, q: nat)
    ensures r * (2 * q) == 2 * (r * q) && (r + 1) * (2 * q) == 2 * ((r + 1) * q)
  {}

  // ---- the tint ----

  /** The luminance is the nearest whole number to the weighted mean of the Rec.709 weights. */
  lemma LightIsNearest(p: Pixel)
    ensures -5000 < 2126 * p.r + 7152 * p.g + 722 * p.b + 1 - 10000 * Light(p) <= 5000 + 1
    ensures 2126 + 7152 + 722 == 10000
  {}

  /** A colour is red, green and blue from the top of its lowest 24 bits. */
  lemma ColorParts(high: nat, r: nat, g: nat, b: nat)
    requires r < 256 && g < 256 && b < 256
    ensures var color := high * 0x100_0000 + r * 0x1_0000 + g * 0x100 + b;
            Component(color, 0) == r && Component(color, 1) == g && Component(color, 2) == b
  {
    var color := high * 0x100_0000 + r * 0x1_0000 + g * 0x100 + b;
    DivModOf(high * 256 + r, g * 256 + b, 65536);
    DivModOf(high * 65536 + r * 256 + g, b, 256);
    DivModOf(high, r, 256);
    DivModOf(high * 256 + r, g, 256);
  }

  /** Each channel of a tinted pixel depends on its luminance and on that channel of the colour: it is the nearest
      number to the way from black to the chosen value in the dark half, and from white to it in the light half. */
  lemma TintIsNearest(p: Pixel, high: nat, r: nat, g: nat, b: nat)
    requires r < 256 && g < 256 && b < 256
    ensures var t := Tint(p, high * 0x100_0000 + r * 0x1_0000 + g * 0x100 + b);
            Nearest(t.r, Light(p), r) && Nearest(t.g, Light(p), g) && Nearest(t.b, Light(p), b) && t.a == p.a
  {
    hide Component, Shade, Light;
    ColorParts(high, r, g, b);
    ShadeIsNearest(Light(p), r);
    ShadeIsNearest(Light(p), g);
    ShadeIsNearest(Light(p), b);
  }

  predicate Nearest(v: Byte, light: nat, chosen: nat)
    requires light <= 255 && chosen <= 255
  {
    if light < 128 then -255 <= 2 * (255 * v - 2 * light * chosen) <= 255
    else -255 <= 2 * (255 * (255 - v) - 2 * (255 - light) * (255 - chosen)) <= 255
  }

  lemma ShadeIsNearest(light: nat, chosen: nat)
    requires light <= 255 && chosen <= 255
    ensures Nearest(Shade(light, chosen), light, chosen)
  {
    ShadeFits(light, chosen);
  }

  /** Middle grey becomes the chosen colour, within one step. */
  lemma MiddleIsChosen(light: nat, chosen: nat)
    requires 127 <= light <= 128 && chosen <= 255
    ensures -1 <= Shade(light, chosen) - chosen <= 1
  {}
}
