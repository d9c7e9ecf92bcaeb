/** Sizes and address arithmetic of tiled GX textures. */
module TextureLayout {
  import opened Arithmetic

  const RGB565 := 4
  const RGB5A3 := 5
  const RGBA8 := 6
  const CMPR := 14

  predicate Supported(format: nat) {
    format == RGB565 || format == RGB5A3 || format == RGBA8 || format == CMPR
  }

  function Tiles(size: nat, tile: nat): nat
    requires tile > 0
  {
    (size + tile - 1) / tile
  }

  function TileSize(format: nat): (t: nat)
    ensures t > 0
  {
    if format == CMPR then 8 else 4
  }

  function TileBytes(format: nat): nat { if format == RGBA8 then 64 else 32 }

  function LevelBytes(format: nat, w: nat, h: nat): nat {
    Tiles(w, TileSize(format)) * Tiles(h, TileSize(format)) * TileBytes(format)
  }

  function Half(size: nat): (r: nat)
    ensures size > 0 ==> 0 < r <= size
  {
    if size / 2 > 1 then size / 2 else 1
  }

  /** The size of one dimension `m` levels down. */
  function MipSize(size: nat, m: nat): (r: nat)
    ensures size > 0 ==> 0 < r <= size
    decreases m
  {
    if m == 0 then size else MipSize(Half(size), m - 1)
  }

  /** Bytes of the first `mips` levels. */
  function TextureBytes(format: nat, w: nat, h: nat, mips: nat): nat
    decreases mips
  {
    if mips == 0 then 0 else LevelBytes(format, w, h) + TextureBytes(format, Half(w), Half(h), mips - 1)
  }

  predicate ValidTexture(format: nat, w: nat, h: nat, mips: nat) {
    0 < w <= 2048 && 0 < h <= 2048 && 0 < mips <= 12 && Supported(format)
  }

  /** What `texture_size` computes: 0 for what is not supported. */
  function TextureSize(format: nat, w: nat, h: nat, mips: nat): nat {
    if ValidTexture(format, w, h, mips) then TextureBytes(format, w, h, mips) else 0
  }

  lemma WholeTexture(format: nat, w: nat, h: nat, mips: nat)
    requires ValidTexture(format, w, h, mips)
    ensures TextureSize(format, w, h, mips) == TextureBytes(format, w, h, mips)
  {}

  lemma NoLevels(format: nat, w: nat, h: nat)
    ensures TextureBytes(format, w, h, 0) == 0
  {}

  lemma LevelThenRest(format: nat, w: nat, h: nat, mips: nat)
    requires mips > 0
    ensures TextureBytes(format, w, h, mips) ==
            LevelBytes(format, w, h) + TextureBytes(format, Half(w), Half(h), mips - 1)
  {}

  method ComputeTextureSize(format: nat, width: nat, height: nat, mips: nat) returns (bytes: nat)
    ensures bytes == TextureSize(format, width, height, mips)
  {
    hide TextureBytes, Half;
    if width == 0 || height == 0 || width > 2048 || height > 2048 || mips == 0 || mips > 12 { return 0; }
    if format != 4 && format != 5 && format != 6 && format != 14 { return 0; }
    var w, h := width, height;
    bytes := 0;
    var m := 0;
    while m < mips
      invariant m <= mips
      invariant bytes + TextureBytes(format, w, h, mips - m) == TextureBytes(format, width, height, mips)
    {
      LevelThenRest(format, w, h, mips - m);
      var tile := if format == 14 then 8 else 4;
      bytes := bytes + (w + tile - 1) / tile * ((h + tile - 1) / tile) * (if format == 6 then 64 else 32);
      w, h := Half(w), Half(h);
      m := m + 1;
    }
    NoLevels(format, w, h);
  }

  /** The levels behind the first `a` start where those end. */
  lemma {:induction false} LevelsAddUp(format: nat, w: nat, h: nat, a: nat, b: nat)
    ensures TextureBytes(format, w, h, a + b) ==
            TextureBytes(format, w, h, a) + TextureBytes(format, MipSize(w, a), MipSize(h, a), b)
    decreases a
  {
    if a != 0 { LevelsAddUp(format, Half(w), Half(h), a - 1, b); }
  }

  // ---- multiplication and division ----

  /** A row-major index stays below the number of cells. */
  lemma RowMajor(row: nat, column: nat, rows: nat, columns: nat)
    requires row < rows && column < columns
    ensures row * columns + column < rows * columns
  {
    MulMono(row + 1, rows, columns);
    assert (row + 1) * columns == row * columns + columns;
  }

  // ---- where a pixel lies ----

  /** Tile of 4x4 pixels that holds a pixel, in row-major order. */
  function TileOf(columns: nat, x: nat, y: nat): nat { y / 4 * columns + x / 4 }

  /** Position of a pixel in its tile. */
  function Slot(x: nat, y: nat): (s: nat)
    ensures s < 16
  {
    y % 4 * 4 + x % 4
  }

  /** Offset of the 8-byte CMPR block of a pixel: four blocks to a tile of 8x8 pixels. */
  function BlockOf(columns: nat, x: nat, y: nat): nat {
    (y / 8 * columns + x / 8) * 32 + (y % 8 / 4 * 2 + x % 8 / 4) * 8
  }

  lemma TilesCover(size: nat, tile: nat, x: nat)
    requires tile == 4 || tile == 8
    ensures x < size ==> x / tile < Tiles(size, tile)
  {}

  lemma TileInLevel(w: nat, h: nat, x: nat, y: nat)
    requires x < w && y < h
    ensures TileOf(Tiles(w, 4), x, y) < Tiles(w, 4) * Tiles(h, 4)
  {
    TilesCover(w, 4, x);
    TilesCover(h, 4, y);
    RowMajor(y / 4, x / 4, Tiles(h, 4), Tiles(w, 4));
  }

  lemma BlockInLevel(w: nat, h: nat, x: nat, y: nat)
    requires x < w && y < h
    ensures BlockOf(Tiles(w, 8), x, y) + 8 <= Tiles(w, 8) * Tiles(h, 8) * 32
  {
    hide Tiles;
    TilesCover(w, 8, x);
    TilesCover(h, 8, y);
    RowMajor(y / 8, x / 8, Tiles(h, 8), Tiles(w, 8));
    assert y % 8 / 4 * 2 + x % 8 / 4 <= 3;
  }

  /** Every byte of a pixel's block or tile slot lies inside its level. */
  lemma PixelInLevel(format: nat, w: nat, h: nat, x: nat, y: nat)
    requires Supported(format) && x < w && y < h
    ensures format == CMPR ==> BlockOf(Tiles(w, 8), x, y) + 8 <= LevelBytes(format, w, h)
    ensures format != CMPR ==>
              TileOf(Tiles(w, 4), x, y) * TileBytes(format) + TileBytes(format) <= LevelBytes(format, w, h)
  {
    hide Tiles, BlockOf, TileOf;
    if format == CMPR {
      BlockInLevel(w, h, x, y);
    } else {
      TileInLevel(w, h, x, y);
      MulMono(TileOf(Tiles(w, 4), x, y) + 1, Tiles(w, 4) * Tiles(h, 4), TileBytes(format));
    }
  }

  // ---- the RGBA8 address map and its inverse ----

  datatype Channel = Red | Green | Blue | Alpha

  /** Alpha and red interleave in the first half of a tile, green and blue in the second. */
  function ChannelOffset(c: Channel): nat {
    match c case Alpha => 0 case Red => 1 case Green => 32 case Blue => 33
  }

  function Address(columns: nat, x: nat, y: nat, c: Channel): nat {
    TileOf(columns, x, y) * 64 + Slot(x, y) * 2 + ChannelOffset(c)
  }

  function ColumnAt(columns: nat, a: nat): nat
    requires columns > 0
  {
    a / 64 % columns * 4 + a % 32 / 2 % 4
  }

  function RowAt(columns: nat, a: nat): nat
    requires columns > 0
  {
    a / 64 / columns * 4 + a % 32 / 2 / 4
  }

  function ChannelAt(a: nat): Channel {
    if a % 64 < 32 then (if a % 2 == 0 then Alpha else Red) else (if a % 2 == 0 then Green else Blue)
  }

  lemma SplitAddress(tile: nat, slot: nat, c: Channel)
    requires slot < 16
    ensures var a := tile * 64 + slot * 2 + ChannelOffset(c);
            a / 64 == tile && a % 32 / 2 == slot && ChannelAt(a) == c
  {
    var half := if c == Green || c == Blue then 1 else 0;
    var odd := if c == Red || c == Blue then 1 else 0;
    var a := tile * 64 + slot * 2 + ChannelOffset(c);
    assert ChannelOffset(c) == half * 32 + odd;
    DivModOf(tile, half * 32 + slot * 2 + odd, 64);
    DivModOf(tile * 2 + half, slot * 2 + odd, 32);
    DivModOf((tile * 2 + half) * 16 + slot, odd, 2);
    DivModOf(slot, odd, 2);
  }

  lemma LowBits(a: nat)
    ensures a % 32 == a % 64 % 32 && a % 2 == a % 64 % 2
  {
    var low := a % 64;
    DivModOf(a / 64 * 2 + low / 32, low % 32, 32);
    DivModOf(a / 64 * 32 + low / 2, low % 2, 2);
  }

  lemma JoinLow(low: nat)
    requires low < 64
    ensures low == low % 32 / 2 * 2 + ChannelOffset(ChannelAt(low))
  {}

  lemma JoinAddress(a: nat)
    ensures a == a / 64 * 64 + a % 32 / 2 * 2 + ChannelOffset(ChannelAt(a))
  {
    hide ChannelOffset;
    LowBits(a);
    JoinLow(a % 64);
    assert a % 64 % 64 == a % 64;
    assert ChannelAt(a) == ChannelAt(a % 64);
  }

  lemma SplitTile(columns: nat, x: nat, y: nat)
    requires x < 4 * columns
    ensures columns > 0 && TileOf(columns, x, y) / columns == y / 4 && TileOf(columns, x, y) % columns == x / 4
  {
    DivModOf(y / 4, x / 4, columns);
  }

  lemma SplitSlot(x: nat, y: nat)
    ensures Slot(x, y) % 4 == x % 4 && Slot(x, y) / 4 == y % 4
  {}

  /** Distinct pixels and channels have distinct addresses: each is recovered from its address. */
  lemma AddressDetermines(columns: nat, x: nat, y: nat, c: Channel)
    requires x < 4 * columns
    ensures var a := Address(columns, x, y, c);
            ColumnAt(columns, a) == x && RowAt(columns, a) == y && ChannelAt(a) == c
  {
    hide ChannelOffset, ChannelAt, TileOf, Slot;
    SplitAddress(TileOf(columns, x, y), Slot(x, y), c);
    SplitTile(columns, x, y);
    SplitSlot(x, y);
  }

  /** Every address belongs to a pixel and channel. */
  lemma AddressCovers(columns: nat, a: nat)
    requires columns > 0
    ensures Address(columns, ColumnAt(columns, a), RowAt(columns, a), ChannelAt(a)) == a
    ensures ColumnAt(columns, a) < 4 * columns
  {
    hide ChannelOffset, ChannelAt, Slot;
    JoinAddress(a);
    var tile := a / 64;
    var slot := a % 32 / 2;
    TileParts(tile % columns, tile / columns, slot);
    JoinTile(columns, tile, ColumnAt(columns, a), RowAt(columns, a));
  }

  lemma JoinTile(columns: nat, tile: nat, x: nat, y: nat)
    requires columns > 0 && x / 4 == tile % columns && y / 4 == tile / columns
    ensures TileOf(columns, x, y) == tile && tile % columns < columns
  {}

  lemma TileParts(tx: nat, ty: nat, slot: nat)
    requires slot < 16
    ensures var x := tx * 4 + slot % 4;
            var y := ty * 4 + slot / 4;
            x / 4 == tx && y / 4 == ty && Slot(x, y) == slot
  {}

  lemma AddressInLevel(w: nat, h: nat, x: nat, y: nat, c: Channel)
    requires x < w && y < h
    ensures Address(Tiles(w, 4), x, y, c) < LevelBytes(RGBA8, w, h)
  {
    hide Tiles;
    TileInLevel(w, h, x, y);
  }
}
