/** Recolouring of textures: decode, tint, and write as tiled RGBA8. */
module PlayerColor {
  import opened Arithmetic
  import opened Common
  import opened TextureLayout

  datatype Pixel = Pixel(r: Byte, g: Byte, b: Byte, a: Byte)

  /** The big-endian 16-bit word at `i`. */
  function Word(bytes: seq<Byte>, i: nat): (v: nat)
    requires i + 1 < |bytes|
    ensures v < 65536
  {
    var high: int := bytes[i];
    var low: int := bytes[i + 1];
    high * 256 + low
  }

  function Rgb565(v: nat): Pixel
    requires v < 65536
  {
    Pixel(v / 2048 % 32 * 255 / 31, v / 32 % 64 * 255 / 63, v % 32 * 255 / 31, 255)
  }

  function Rgb5a3(v: nat): Pixel
    requires v < 65536
  {
    if v / 32768 % 2 == 1 then
      Pixel(v / 1024 % 32 * 255 / 31, v / 32 % 32 * 255 / 31, v % 32 * 255 / 31, 255)
    else
      Pixel(v / 256 % 16 * 17, v / 16 % 16 * 17, v % 16 * 17, v / 4096 % 8 * 255 / 7)
  }

  /** Luminance of a pixel. */
  function Light(p: Pixel): (l: nat)
    ensures l <= 255
  {
    (2126 * p.r + 7152 * p.g + 722 * p.b + 5000) / 10000
  }

  /** One chosen colour component at a luminance: shades from black to it, then from it to white. */
  function Shade(light: nat, chosen: nat): (v: Byte)
    requires light <= 255 && chosen <= 255
  {
    ShadeFits(light, chosen);
    if light < 128 then (2 * light * chosen + 127) / 255
    else 255 - (2 * (255 - light) * (255 - chosen) + 127) / 255
  }

  lemma ShadeFits(light: nat, chosen: nat)
    requires light <= 255 && chosen <= 255
    ensures light < 128 ==> 2 * light * chosen <= 2 * 127 * 255
    ensures light >= 128 ==> 0 <= 2 * (255 - light) * (255 - chosen) <= 2 * 127 * 255
  {
    if light < 128 {
      MulMono(light, 127, chosen);
    } else {
      MulMono(255 - light, 127, 255 - chosen);
    }
  }

  /** Component `c` (0 red, 1 green, 2 blue) of a colour; higher bits are ignored. */
  function Component(color: nat, c: nat): (v: nat)
    ensures v <= 255
  {
    if c == 0 then color / 65536 % 256 else if c == 1 then color / 256 % 256 else color % 256
  }

  function Tint(p: Pixel, color: nat): Pixel {
    var light := Light(p);
    Pixel(Shade(light, Component(color, 0)), Shade(light, Component(color, 1)), Shade(light, Component(color, 2)), p.a)
  }

  /** Black shadows and white highlights are kept whatever the colour, and so is the alpha of every pixel. */
  lemma TintKeepsEnds(color: nat, p: Pixel)
    ensures Tint(p, color).a == p.a
    ensures p.r == p.g == p.b == 0 ==> Tint(p, color) == p
    ensures p.r == p.g == p.b == 255 ==> Tint(p, color) == p
  {
    ShadeEnds(Component(color, 0));
    ShadeEnds(Component(color, 1));
    ShadeEnds(Component(color, 2));
  }

  lemma ShadeEnds(chosen: nat)
    requires chosen <= 255
    ensures Shade(0, chosen) == 0 && Shade(255, chosen) == 255
  {}

  /** A lighter pixel is tinted no darker, across both halves of the scale. */
  lemma ShadeMonotone(l1: nat, l2: nat, chosen: nat)
    requires l1 <= l2 <= 255 && chosen <= 255
    ensures Shade(l1, chosen) <= Shade(l2, chosen)
  {
    if l2 < 128 {
      MulMono(l1, l2, chosen);
      assert 2 * l1 * chosen <= 2 * l2 * chosen;
    } else if l1 >= 128 {
      MulMono(255 - l2, 255 - l1, 255 - chosen);
      assert 2 * (255 - l2) * (255 - chosen) <= 2 * (255 - l1) * (255 - chosen);
    } else {
      MulMono(l1, 127, chosen);
      MulMono(255 - l2, 127, 255 - chosen);
      assert 2 * l1 * chosen <= 254 * chosen;
      assert 2 * (255 - l2) * (255 - chosen) <= 254 * (255 - chosen);
    }
  }

  // ---- decoding ----

  /** Entry `s` of the palette of the CMPR block at `i`. */
  function PaletteEntry(source: seq<Byte>, i: nat, s: nat): Pixel
    requires i + 8 <= |source| && s < 4
  {
    var a := Word(source, i);
    var z := Word(source, i + 2);
    var p := Rgb565(a);
    var q := Rgb565(z);
    if s == 0 then p
    else if s == 1 then q
    else if s == 2 then
      if a > z then Pixel((2 * p.r + q.r) / 3, (2 * p.g + q.g) / 3, (2 * p.b + q.b) / 3, 255)
      else Pixel((p.r + q.r) / 2, (p.g + q.g) / 2, (p.b + q.b) / 2, 255)
    else
      if a > z then Pixel((p.r + 2 * q.r) / 3, (p.g + 2 * q.g) / 3, (p.b + 2 * q.b) / 3, 255)
      else Pixel(0, 0, 0, 0)
  }

  /** The two selector bits of a pixel, most significant first, in row `y % 4` of the block at `i`. */
  function Selector(source: seq<Byte>, i: nat, x: nat, y: nat): (s: nat)
    requires i + 8 <= |source|
    ensures s < 4
  {
    var row := source[i + 4 + y % 4];
    match x % 4
    case 0 => row / 64 % 4
    case 1 => row / 16 % 4
    case 2 => row / 4 % 4
    case _ => row % 4
  }

  /** The pixel of an RGBA8 tile at `i`. */
  function ReadRgba8(source: seq<Byte>, i: nat, slot: nat): Pixel
    requires i + 64 <= |source| && slot < 16
  {
    Pixel(source[i + 2 * slot + 1], source[i + 32 + 2 * slot], source[i + 33 + 2 * slot], source[i + 2 * slot])
  }

  /** Pixel (x, y) of the level of `w` by `h` pixels that starts at `base`. */
  function Decode(source: seq<Byte>, format: nat, base: nat, w: nat, h: nat, x: nat, y: nat): Pixel
    requires Supported(format) && x < w && y < h && base + LevelBytes(format, w, h) <= |source|
  {
    PixelInLevel(format, w, h, x, y);
    if format == CMPR then
      var block := base + BlockOf(Tiles(w, 8), x, y);
      PaletteEntry(source, block, Selector(source, block, x, y))
    else
      var tile := base + TileOf(Tiles(w, 4), x, y) * TileBytes(format);
      if format == RGBA8 then ReadRgba8(source, tile, Slot(x, y))
      else if format == RGB565 then Rgb565(Word(source, tile + 2 * Slot(x, y)))
      else Rgb5a3(Word(source, tile + 2 * Slot(x, y)))
  }

  // ---- what the output has to be, byte by byte ----

  function Part(p: Pixel, c: Channel): Byte {
    match c case Red => p.r case Green => p.g case Blue => p.b case Alpha => p.a
  }

  datatype Level = Level(format: nat, base: nat, w: nat, h: nat) {
    predicate In(source: seq<Byte>) {
      Supported(format) && w > 0 && h > 0 && base + LevelBytes(format, w, h) <= |source|
    }
    function OutBytes(): nat { LevelBytes(RGBA8, w, h) }
    function Columns(): nat { Tiles(w, 4) }
  }

  /** Byte `a` of a recoloured level: the channel of the pixel it belongs to, or 0 in the padding. */
  function ExpectedByte(source: seq<Byte>, l: Level, color: nat, a: nat): Byte
    requires l.In(source)
  {
    var x := ColumnAt(l.Columns(), a);
    var y := RowAt(l.Columns(), a);
    if x < l.w && y < l.h then Part(Tint(Decode(source, l.format, l.base, l.w, l.h, x, y), color), ChannelAt(a)) else 0
  }

  function RecoloredLevel(source: seq<Byte>, l: Level, color: nat): (out: seq<Byte>)
    requires l.In(source)
    ensures |out| == l.OutBytes()
  {
    seq(l.OutBytes(), a requires 0 <= a < l.OutBytes() => ExpectedByte(source, l, color, a))
  }

  lemma RecoloredByte(source: seq<Byte>, l: Level, color: nat, a: nat)
    requires l.In(source) && a < l.OutBytes()
    ensures RecoloredLevel(source, l, color)[a] == ExpectedByte(source, l, color, a)
  {}

  function Recolored(source: seq<Byte>, l: Level, mips: nat, color: nat): (out: seq<Byte>)
    requires Supported(l.format) && l.w > 0 && l.h > 0
    requires l.base + TextureBytes(l.format, l.w, l.h, mips) <= |source|
    ensures |out| == TextureBytes(RGBA8, l.w, l.h, mips)
    decreases mips
  {
    if mips == 0 then []
    else RecoloredLevel(source, l, color) + Recolored(source, Next(l), mips - 1, color)
  }

  function Next(l: Level): Level {
    Level(l.format, l.base + LevelBytes(l.format, l.w, l.h), Half(l.w), Half(l.h))
  }

  // ---- painting a level ----

  /** Pixel (px, py) comes before (x, y) in reading order. */
  predicate Before(px: nat, py: nat, x: nat, y: nat) { py < y || (py == y && px < x) }

  /** The level's bytes when the pixels before (x, y) have been written and nothing else. */
  ghost predicate Painted(source: seq<Byte>, l: Level, color: nat, bytes: seq<Byte>, x: nat, y: nat)
    requires l.In(source)
  {
    |bytes| == l.OutBytes() &&
    forall a :: 0 <= a < |bytes| ==>
      bytes[a] ==
      if Before(ColumnAt(l.Columns(), a), RowAt(l.Columns(), a), x, y) then ExpectedByte(source, l, color, a) else 0
  }

  /** The four bytes of a pixel written at `d`. */
  function Written(bytes: seq<Byte>, d: nat, p: Pixel): (r: seq<Byte>)
    requires d + 33 < |bytes|
    ensures |r| == |bytes|
    ensures r[d] == p.a && r[d + 1] == p.r && r[d + 32] == p.g && r[d + 33] == p.b
    ensures forall i :: 0 <= i < |bytes| && i != d && i != d + 1 && i != d + 32 && i != d + 33 ==> r[i] == bytes[i]
  {
    bytes[d := p.a][d + 1 := p.r][d + 32 := p.g][d + 33 := p.b]
  }

  lemma AddressParts(columns: nat, x: nat, y: nat)
    ensures var d := Address(columns, x, y, Alpha);
            Address(columns, x, y, Red) == d + 1 && Address(columns, x, y, Green) == d + 32 &&
            Address(columns, x, y, Blue) == d + 33
  {}

  lemma PaintPixel(source: seq<Byte>, l: Level, color: nat, bytes: seq<Byte>, x: nat, y: nat)
    requires l.In(source) && x < l.w && y < l.h && Painted(source, l, color, bytes, x, y)
    ensures var d := Address(l.Columns(), x, y, Alpha);
            var p := Tint(Decode(source, l.format, l.base, l.w, l.h, x, y), color);
            d + 33 < |bytes| && Painted(source, l, color, Written(bytes, d, p), x + 1, y)
  {
    hide Address, ColumnAt, RowAt, ChannelAt, Tint, Decode, LevelBytes, Tiles, Written;
    var columns := l.Columns();
    WidthCovered(l.w);
    AddressInLevel(l.w, l.h, x, y, Blue);
    AddressParts(columns, x, y);
    var d := Address(columns, x, y, Alpha);
    var p := Tint(Decode(source, l.format, l.base, l.w, l.h, x, y), color);
    var after := Written(bytes, d, p);
    forall a | 0 <= a < |after|
      ensures after[a] ==
              if Before(ColumnAt(columns, a), RowAt(columns, a), x + 1, y) then ExpectedByte(source, l, color, a) else 0
    {
      AddressCovers(columns, a);
      if ColumnAt(columns, a) == x && RowAt(columns, a) == y {
        assert a == Address(columns, x, y, ChannelAt(a));
      } else {
        AddressDetermines(columns, x, y, Alpha);
        AddressDetermines(columns, x, y, Red);
        AddressDetermines(columns, x, y, Green);
        AddressDetermines(columns, x, y, Blue);
      }
    }
  }

  lemma WidthCovered(w: nat)
    ensures w <= 4 * Tiles(w, 4) && (w > 0 ==> Tiles(w, 4) > 0)
  {}

  lemma PaintRow(source: seq<Byte>, l: Level, color: nat, bytes: seq<Byte>, y: nat)
    requires l.In(source) && Painted(source, l, color, bytes, l.w, y)
    ensures Painted(source, l, color, bytes, 0, y + 1)
  {
    hide ColumnAt, RowAt, ChannelAt, Tint, Decode, LevelBytes;
  }

  lemma PaintNothing(source: seq<Byte>, l: Level, color: nat, bytes: seq<Byte>)
    requires l.In(source) && |bytes| == l.OutBytes() && forall a :: 0 <= a < |bytes| ==> bytes[a] == 0
    ensures Painted(source, l, color, bytes, 0, 0)
  {
    hide ColumnAt, RowAt;
  }

  lemma PaintedAll(source: seq<Byte>, l: Level, color: nat, bytes: seq<Byte>)
    requires l.In(source) && Painted(source, l, color, bytes, 0, l.h)
    ensures bytes == RecoloredLevel(source, l, color)
  {
    hide ExpectedByte, ColumnAt, RowAt, LevelBytes, RecoloredLevel;
    assert |bytes| == |RecoloredLevel(source, l, color)|;
    forall a | 0 <= a < |bytes| ensures bytes[a] == RecoloredLevel(source, l, color)[a] {
      RecoloredByte(source, l, color, a);
      PaintedByte(source, l, color, bytes, a);
    }
  }

  lemma PaintedByte(source: seq<Byte>, l: Level, color: nat, bytes: seq<Byte>, a: nat)
    requires l.In(source) && Painted(source, l, color, bytes, 0, l.h) && a < |bytes|
    ensures bytes[a] == ExpectedByte(source, l, color, a)
  {
    hide ColumnAt, RowAt, ChannelAt, Tint, Decode, LevelBytes;
  }

  // ---- the code ----

  method DecodePixel(source: seq<Byte>, format: nat, base: nat, w: nat, h: nat, x: nat, y: nat) returns (p: Pixel)
    requires Supported(format) && x < w && y < h && base + LevelBytes(format, w, h) <= |source|
    ensures p == Decode(source, format, base, w, h, x, y)
  {
    PixelInLevel(format, w, h, x, y);
    if format == 14 {
      var b := base + (y / 8 * ((w + 7) / 8) + x / 8) * 32 + (y % 8 / 4 * 2 + x % 8 / 4) * 8;
      assert b == base + BlockOf(Tiles(w, 8), x, y);
      var s := Selector(source, b, x, y);
      p := PaletteEntry(source, b, s);
    } else {
      var tile := y / 4 * ((w + 3) / 4) + x / 4;
      var index := y % 4 * 4 + x % 4;
      var b := base + tile * (if format == 6 then 64 else 32);
      assert b == base + TileOf(Tiles(w, 4), x, y) * TileBytes(format) && index == Slot(x, y);
      if format == 6 {
        p := Pixel(source[b + 2 * index + 1], source[b + 32 + 2 * index], source[b + 33 + 2 * index],
                   source[b + 2 * index]);
      } else if format == 4 {
        p := Rgb565(Word(source, b + 2 * index));
      } else {
        p := Rgb5a3(Word(source, b + 2 * index));
      }
    }
  }

  /** Writes one pixel into its tile and leaves everything else. */
  method PutPixel(out: array<Byte>, dest: nat, p: Pixel)
    requires dest + 33 < out.Length
    modifies out
    ensures out[..] == Written(old(out[..]), dest, p)
  {
    out[dest] := p.a;
    out[dest + 1] := p.r;
    out[dest + 32] := p.g;
    out[dest + 33] := p.b;
  }

  lemma WrittenSlice(bytes: seq<Byte>, from: nat, n: nat, d: nat, p: Pixel)
    requires from + n <= |bytes| && d + 33 < n
    ensures Written(bytes, from + d, p)[from..from + n] == Written(bytes[from..from + n], d, p)
    ensures Written(bytes, from + d, p)[..from] == bytes[..from]
    ensures Written(bytes, from + d, p)[from + n..] == bytes[from + n..]
  {}

  method RecolorLevel(source: seq<Byte>, l: Level, color: nat, out: array<Byte>, outputBase: nat)
    requires l.In(source) && outputBase + l.OutBytes() <= out.Length
    requires forall a :: outputBase <= a < outputBase + l.OutBytes() ==> out[a] == 0
    modifies out
    ensures out[..outputBase] == old(out[..outputBase])
    ensures out[outputBase..outputBase + l.OutBytes()] == RecoloredLevel(source, l, color)
    ensures out[outputBase + l.OutBytes()..] == old(out[outputBase + l.OutBytes()..])
  {
    hide Painted, Decode, Tint, Address, LevelBytes, RecoloredLevel, Written;
    var n := l.OutBytes();
    var tilesX := (l.w + 3) / 4;
    var y := 0;
    PaintNothing(source, l, color, out[outputBase..outputBase + n]);
    while y < l.h
      invariant y <= l.h
      invariant out[..outputBase] == old(out[..outputBase])
      invariant out[outputBase + n..] == old(out[outputBase + n..])
      invariant Painted(source, l, color, out[outputBase..outputBase + n], 0, y)
    {
      var x := 0;
      while x < l.w
        invariant x <= l.w
        invariant out[..outputBase] == old(out[..outputBase])
        invariant out[outputBase + n..] == old(out[outputBase + n..])
        invariant Painted(source, l, color, out[outputBase..outputBase + n], x, y)
      {
        var p := DecodePixel(source, l.format, l.base, l.w, l.h, x, y);
        p := Tint(p, color);
        ghost var before := out[..];
        assert before[outputBase..outputBase + n] == out[outputBase..outputBase + n];
        PaintPixel(source, l, color, out[outputBase..outputBase + n], x, y);
        var dest := Destination(tilesX, x, y);
        WrittenSlice(before, outputBase, n, dest, p);
        PutPixel(out, outputBase + dest, p);
        SliceOf(out, outputBase, n);
        x := x + 1;
      }
      PaintRow(source, l, color, out[outputBase..outputBase + n], y);
      y := y + 1;
    }
    PaintedAll(source, l, color, out[outputBase..outputBase + n]);
  }

  function Destination(tilesX: nat, x: nat, y: nat): (d: nat)
    ensures d == Address(tilesX, x, y, Alpha)
  {
    (y / 4 * tilesX + x / 4) * 64 + (y % 4 * 4 + x % 4) * 2
  }

  lemma SliceOf(out: array<Byte>, from: nat, n: nat)
    requires from + n <= out.Length
    ensures out[..][from..from + n] == out[from..from + n]
    ensures out[..][..from] == out[..from] && out[..][from + n..] == out[from + n..]
  {}

  /** Empty for an unsupported or truncated texture, else the recoloured levels one after the other. */
  method Recolor(source: seq<Byte>, format: nat, width: nat, height: nat, mips: nat, color: nat) returns (r: seq<Byte>)
    ensures !ValidTexture(format, width, height, mips) || |source| < TextureSize(format, width, height, mips) ==>
          r == []
    ensures ValidTexture(format, width, height, mips) && |source| >= TextureSize(format, width, height, mips) ==>
              r == Recolored(source, Level(format, 0, width, height), mips, color)
  {
    hide Recolored, RecoloredLevel, TextureBytes, TextureSize, LevelBytes, Half, ExpectedByte, Tiles;
    var required := ComputeTextureSize(format, width, height, mips);
    TextureNotEmpty(format, width, height, mips);
    if required == 0 || |source| < required { return []; }
    WholeTexture(format, width, height, mips);
    WholeTexture(RGBA8, width, height, mips);
    var size := ComputeTextureSize(6, width, height, mips);
    var out := new Byte[size](_ => 0);
    var l := Level(format, 0, width, height);
    var outputBase: nat := 0;
    var mip := 0;
    while mip < mips
      invariant mip <= mips && l.format == format && 0 < l.w <= 2048 && 0 < l.h <= 2048
      invariant outputBase <= size == out.Length
      invariant l.base + TextureBytes(format, l.w, l.h, mips - mip) == required
      invariant outputBase + TextureBytes(RGBA8, l.w, l.h, mips - mip) == size
      invariant out[..outputBase] + Recolored(source, l, mips - mip, color) ==
                Recolored(source, Level(format, 0, width, height), mips, color)
      invariant forall a :: outputBase <= a < size ==> out[a] == 0
    {
      ghost var before := out[..];
      LevelThenRest(format, l.w, l.h, mips - mip);
      LevelThenRest(RGBA8, l.w, l.h, mips - mip);
      RecoloredStep(source, l, mips - mip, color);
      RecolorLevel(source, l, color, out, outputBase);
      var inputBytes := ComputeTextureSize(format, l.w, l.h, 1);
      var outputBytes := ComputeTextureSize(6, l.w, l.h, 1);
      OneLevel(format, l.w, l.h);
      OneLevel(RGBA8, l.w, l.h);
      assert out[..outputBase + outputBytes] == before[..outputBase] + RecoloredLevel(source, l, color);
      RestIsZero(before, out[..], outputBase + outputBytes);
      assert before[..outputBase] +
             (RecoloredLevel(source, l, color) + Recolored(source, Next(l), mips - mip - 1, color)) ==
             out[..outputBase + outputBytes] + Recolored(source, Next(l), mips - mip - 1, color);
      outputBase := outputBase + outputBytes;
      l := Level(format, l.base + inputBytes, Half(l.w), Half(l.h));
      mip := mip + 1;
    }
    RecoloredNone(source, l, color);
    NoLevels(format, l.w, l.h);
    NoLevels(RGBA8, l.w, l.h);
    r := out[..];
    assert r == out[..outputBase];
  }

  lemma RestIsZero(before: seq<Byte>, after: seq<Byte>, from: nat)
    requires |before| == |after| && from <= |before| && after[from..] == before[from..]
    requires forall a :: from <= a < |before| ==> before[a] == 0
    ensures forall a :: from <= a < |after| ==> after[a] == 0
  {
    forall a | from <= a < |after| ensures after[a] == 0 {
      assert after[from..][a - from] == before[from..][a - from];
    }
  }

  lemma RecoloredStep(source: seq<Byte>, l: Level, mips: nat, color: nat)
    requires Supported(l.format) && l.w > 0 && l.h > 0 && mips > 0
    requires l.base + TextureBytes(l.format, l.w, l.h, mips) <= |source|
    ensures l.In(source)
    ensures Recolored(source, l, mips, color) ==
            RecoloredLevel(source, l, color) + Recolored(source, Next(l), mips - 1, color)
  {}

  lemma RecoloredNone(source: seq<Byte>, l: Level, color: nat)
    requires Supported(l.format) && l.w > 0 && l.h > 0 && l.base <= |source|
    ensures Recolored(source, l, 0, color) == []
  {}

  lemma OneLevel(format: nat, w: nat, h: nat)
    requires Supported(format) && 0 < w <= 2048 && 0 < h <= 2048
    ensures TextureSize(format, w, h, 1) == LevelBytes(format, w, h)
  {
    assert TextureBytes(format, Half(w), Half(h), 0) == 0;
  }

  lemma TextureNotEmpty(format: nat, w: nat, h: nat, mips: nat)
    ensures TextureSize(format, w, h, mips) == 0 <==> !ValidTexture(format, w, h, mips)
  {
    if ValidTexture(format, w, h, mips) {
      var t := TileSize(format);
      assert Tiles(w, t) >= 1 && Tiles(h, t) >= 1;
      MulMono(1, Tiles(w, t), Tiles(h, t));
    }
  }

  // ---- what the output means ----

  /** The level `m` steps below `l`. */
  function Down(l: Level, m: nat): Level
  {
    Level(l.format, l.base + TextureBytes(l.format, l.w, l.h, m), MipSize(l.w, m), MipSize(l.h, m))
  }

  /** Reading one recoloured level as RGBA8 gives the tint of the decoded source at every pixel. */
  lemma LevelReadsBack(source: seq<Byte>, l: Level, color: nat, out: seq<Byte>, base: nat, x: nat, y: nat)
    requires l.In(source) && x < l.w && y < l.h
    requires base + l.OutBytes() <= |out| && out[base..base + l.OutBytes()] == RecoloredLevel(source, l, color)
    ensures Decode(out, RGBA8, base, l.w, l.h, x, y) == Tint(Decode(source, l.format, l.base, l.w, l.h, x, y), color)
  {
    hide Tint, Tiles, LevelBytes, ColumnAt, RowAt, ChannelAt, TileOf, Slot, RecoloredLevel;
    var columns := l.Columns();
    var level := out[base..base + l.OutBytes()];
    WidthCovered(l.w);
    forall c: Channel
      ensures Address(columns, x, y, c) < |level|
      ensures out[base + Address(columns, x, y, c)] ==
              Part(Tint(Decode(source, l.format, l.base, l.w, l.h, x, y), color), c)
    {
      AddressInLevel(l.w, l.h, x, y, c);
      AddressDetermines(columns, x, y, c);
      RecoloredByte(source, l, color, Address(columns, x, y, c));
      assert level[Address(columns, x, y, c)] == out[base + Address(columns, x, y, c)];
    }
    PixelInLevel(RGBA8, l.w, l.h, x, y);
    assert base + Address(columns, x, y, Red) == base + TileOf(columns, x, y) * 64 + 2 * Slot(x, y) + 1;
    assert base + Address(columns, x, y, Green) == base + TileOf(columns, x, y) * 64 + 32 + 2 * Slot(x, y);
    assert base + Address(columns, x, y, Blue) == base + TileOf(columns, x, y) * 64 + 33 + 2 * Slot(x, y);
    assert base + Address(columns, x, y, Alpha) == base + TileOf(columns, x, y) * 64 + 2 * Slot(x, y);
  }

  /** Level `m` of the output is the recoloured level `m` of the source, at the sum of the sizes before it. */
  lemma {:induction false} LevelsInPlace(source: seq<Byte>, l: Level, mips: nat, color: nat, m: nat)
    requires Supported(l.format) && l.w > 0 && l.h > 0 && m < mips
    requires l.base + TextureBytes(l.format, l.w, l.h, mips) <= |source|
    ensures Down(l, m).In(source)
    ensures var out := Recolored(source, l, mips, color);
            var base := TextureBytes(RGBA8, l.w, l.h, m);
            && base + Down(l, m).OutBytes() <= |out|
            && out[base..base + Down(l, m).OutBytes()] == RecoloredLevel(source, Down(l, m), color)
    decreases m
  {
    hide LevelBytes, RecoloredLevel, Half, Recolored, TextureBytes, MipSize, Down;
    RecoloredStep(source, l, mips, color);
    LevelThenRest(l.format, l.w, l.h, mips);
    var first := RecoloredLevel(source, l, color);
    var rest := Recolored(source, Next(l), mips - 1, color);
    if m == 0 {
      DownNone(l);
      NoLevels(RGBA8, l.w, l.h);
      FrontOf(first, rest);
    } else {
      LevelThenRest(RGBA8, l.w, l.h, m);
      LevelsInPlace(source, Next(l), mips - 1, color, m - 1);
      DownNext(l, m);
      BackOf(first, rest, TextureBytes(RGBA8, Half(l.w), Half(l.h), m - 1), Down(l, m).OutBytes());
    }
  }

  lemma DownNone(l: Level)
    ensures Down(l, 0) == l
  {}

  lemma DownNext(l: Level, m: nat)
    requires m > 0
    ensures Down(l, m) == Down(Next(l), m - 1)
  {
    hide LevelBytes, Half;
  }

  lemma FrontOf(first: seq<Byte>, rest: seq<Byte>)
    ensures (first + rest)[0..|first|] == first
  {}

  lemma BackOf(first: seq<Byte>, rest: seq<Byte>, base: nat, n: nat)
    requires base + n <= |rest|
    ensures (first + rest)[|first| + base..|first| + base + n] == rest[base..base + n]
  {}

  /** Recolouring is exactly decode, tint, encode: at every level and pixel, the output read as RGBA8 is the tint
      of the pixel decoded from the source, with both levels at the sums of the sizes before them. */
  lemma RecolorIsTint(source: seq<Byte>, format: nat, w: nat, h: nat, mips: nat, color: nat, m: nat, x: nat, y: nat)
    requires ValidTexture(format, w, h, mips) && |source| >= TextureSize(format, w, h, mips)
    requires m < mips && x < MipSize(w, m) && y < MipSize(h, m)
    ensures var out := Recolored(source, Level(format, 0, w, h), mips, color);
            var inBase := TextureBytes(format, w, h, m);
            var outBase := TextureBytes(RGBA8, w, h, m);
            && |out| == TextureSize(RGBA8, w, h, mips)
            && inBase + LevelBytes(format, MipSize(w, m), MipSize(h, m)) <= |source|
            && outBase + LevelBytes(RGBA8, MipSize(w, m), MipSize(h, m)) <= |out|
            && Decode(out, RGBA8, outBase, MipSize(w, m), MipSize(h, m), x, y) ==
               Tint(Decode(source, format, inBase, MipSize(w, m), MipSize(h, m), x, y), color)
  {
    hide LevelBytes, Decode, Tint, Recolored, RecoloredLevel, MipSize, TextureBytes;
    var l := Level(format, 0, w, h);
    LevelsInPlace(source, l, mips, color, m);
    LevelReadsBack(source, Down(l, m), color, Recolored(source, l, mips, color), TextureBytes(RGBA8, w, h, m), x, y);
  }

  /** Whether a byte of a level of that size lies in a tile but in no pixel. */
  predicate Padding(w: nat, h: nat, a: nat)
    requires w > 0
  {
    ColumnAt(Tiles(w, 4), a) >= w || RowAt(Tiles(w, 4), a) >= h
  }

  /** Bytes of the output that belong to no pixel of their level are 0. */
  lemma PaddingIsZero(source: seq<Byte>, format: nat, w: nat, h: nat, mips: nat, color: nat, m: nat, a: nat)
    requires ValidTexture(format, w, h, mips) && |source| >= TextureSize(format, w, h, mips)
    requires m < mips && a < LevelBytes(RGBA8, MipSize(w, m), MipSize(h, m))
    requires Padding(MipSize(w, m), MipSize(h, m), a)
    ensures var out := Recolored(source, Level(format, 0, w, h), mips, color);
            TextureBytes(RGBA8, w, h, m) + a < |out| && out[TextureBytes(RGBA8, w, h, m) + a] == 0
  {
    hide LevelBytes, Recolored, RecoloredLevel, MipSize, TextureBytes, Padding;
    var l := Level(format, 0, w, h);
    LevelsInPlace(source, l, mips, color, m);
    var out := Recolored(source, l, mips, color);
    var base := TextureBytes(RGBA8, w, h, m);
    PaddingInLevel(source, Down(l, m), color, a);
    assert out[base..base + Down(l, m).OutBytes()][a] == out[base + a];
  }

  lemma PaddingInLevel(source: seq<Byte>, l: Level, color: nat, a: nat)
    requires l.In(source) && a < l.OutBytes() && Padding(l.w, l.h, a)
    ensures RecoloredLevel(source, l, color)[a] == 0
  {
    hide LevelBytes, RecoloredLevel, ColumnAt, RowAt, Tiles, Decode, Tint;
    RecoloredByte(source, l, color, a);
  }
}
