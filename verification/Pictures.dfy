/** Pictures as maps from screen points to colours, and the ink that each drawing operation leaves. */
module Pictures {
  import opened CTypes
  import opened Arithmetic
  import opened Bits

  type TileCount = n: int | 1 <= n < 0x100 witness 1

  datatype ColorMode = Indexed | Direct

  /** One colour field of the direct-colour layout: mask size and field position. */
  datatype Channel = Channel(size: uint8, position: uint8) {
    /** The C shifts that use this field have a defined value: 1 << size and position << size are
        in int, and shifting a uint32_t by position drops the bits beyond 32. */
    predicate ShiftsDefined() {
      size <= 30 && position <= 31 && Shl(position, size) < 0x8000_0000
    }

    predicate DisjointFrom(other: Channel) {
      position + size <= other.position || other.position + other.size <= position
    }
  }

  /** The mode information the rasteriser keeps. */
  datatype Format = Format(xRes: uint16, yRes: uint16, bitsPerPixel: uint8, mode: ColorMode,
                           red: Channel, green: Channel, blue: Channel)
  {
    /** The least number of bytes that holds the bits of a pixel. */
    function BytesPerPixel(): (bytes: nat)
      ensures 8 * (bytes - 1) < bitsPerPixel <= 8 * bytes
    {
      (bitsPerPixel + 7) / 8
    }

    function VramSize(): nat {
      Times(Times(yRes, xRes), BytesPerPixel())
    }

    predicate Supported() {
      1 <= bitsPerPixel <= 32 && VramSize() < 0x8000_0000
    }

    predicate PatternDefined() {
      match mode
      case Indexed => bitsPerPixel <= 30
      case Direct => red.ShiftsDefined() && green.ShiftsDefined() && blue.ShiftsDefined()
    }
  }

  datatype Point = Point(x: uint16, y: uint16)

  type Picture = map<Point, nat>

  datatype Image = Image(width: uint16, height: uint16, pixels: seq<uint8>) {
    function At(dx: nat, dy: nat): uint8
      requires |pixels| == Times(height, width) && dx < width && dy < height
    {
      RowMajorBound(dx, dy, width, height);
      pixels[Times(dy, width) + dx]
    }
  }

  type Sprite = i: Image | |i.pixels| == Times(i.height, i.width) witness Image(0, 0, [])

  function OnScreen(f: Format): (points: set<Point>)
    ensures forall p :: p in points <==> p.x < f.xRes && p.y < f.yRes
  {
    var points := set x: uint16, y: uint16 | x < f.xRes && y < f.yRes :: Point(x, y);
    assert forall p: Point :: p.x < f.xRes && p.y < f.yRes ==> p == Point(p.x, p.y) && p in points;
    points
  }

  function Black(f: Format): Picture {
    map p | p in OnScreen(f) :: 0
  }

  // Ink: the screen points that a drawing operation marks, each with the colour it leaves there.
  // Drawing lays ink over a picture, so operations compose by map union.

  /** A colour as it survives being stored in bytes_per_pixel bytes. */
  function Stored(f: Format, color: nat): nat {
    ReadLE(WriteLE(color, f.BytesPerPixel()))
  }

  function DotInk(f: Format, x: uint16, y: uint16, color: nat): Picture {
    map p | p in OnScreen(f) && p.x == x && p.y == y :: Stored(f, color)
  }

  function SpanInk(f: Format, x: uint16, y: uint16, len: nat, color: nat): Picture {
    map p | p in OnScreen(f) && p.y == y && Ahead(p.x, x) < len :: Stored(f, color)
  }

  function BlockInk(f: Format, x: uint16, y: uint16, width: nat, height: nat, color: nat): Picture {
    map p | p in OnScreen(f) && Ahead(p.x, x) < width && Ahead(p.y, y) < height :: Stored(f, color)
  }

  /** The image pixels of the given number of full rows and of the first columns of the next one. */
  function BlitInk(f: Format, img: Sprite, x: uint16, y: uint16, rows: nat, columns: nat): Picture {
    map p | p in OnScreen(f) && BlitHits(img, x, y, rows, columns, p)
      :: Stored(f, img.At(Ahead(p.x, x), Ahead(p.y, y)))
  }

  predicate BlitHits(img: Sprite, x: uint16, y: uint16, rows: nat, columns: nat, p: Point) {
    var dx, dy := Ahead(p.x, x), Ahead(p.y, y);
    dx < img.width && dy < img.height && Passed(dx, dy, rows, columns)
  }

  /** A double loop that is at (columns, rows) has already been at (c, r). */
  predicate Passed(c: nat, r: nat, rows: nat, columns: nat) {
    r < rows || (r == rows && c < columns)
  }

  /** The tiles of the given number of full rows and of the first columns of the next one. */
  function TilesInk(f: Format, n: TileCount, first: uint32, step: uint8, rows: nat, columns: nat): Picture {
    map p | p in OnScreen(f) && TilesHit(f, n, rows, columns, p)
      :: Stored(f, TileColor(f, n, first, step, Quotient(p.x, TileSide(f.xRes, n)), Quotient(p.y, TileSide(f.yRes, n))))
  }

  predicate TilesHit(f: Format, n: TileCount, rows: nat, columns: nat, p: Point) {
    var w, h := TileSide(f.xRes, n), TileSide(f.yRes, n);
    && w > 0 && h > 0
    && Quotient(p.x, w) < n && Quotient(p.y, h) < n
    && Passed(Quotient(p.x, w), Quotient(p.y, h), rows, columns)
  }

  /** uint8_t size = resolution / n. */
  function TileSide(resolution: uint16, n: TileCount): uint8 {
    Quotient(resolution, n) % 0x100
  }

  /** uint16_t origin = t * side. */
  function TileOrigin(t: nat, side: uint8): uint16 {
    Wrap16(Times(t, side))
  }

  /** The colour of tile (nx, ny). */
  function TileColor(f: Format, n: TileCount, first: uint32, step: uint8, nx: nat, ny: nat): uint32 {
    match f.mode
    case Indexed =>
      Wrap32(Low(Wrap32(first + Times(Times(ny, n) + nx, step)), f.bitsPerPixel))
    case Direct =>
      DirectColor(f, first, Times(nx, step), Times(ny, step), Times(nx + ny, step))
  }

  function DirectColor(f: Format, first: uint32, kr: nat, kg: nat, kb: nat): uint32 {
    Pack(f, ChannelValue(f.red, first, kr), ChannelValue(f.green, first, kg), ChannelValue(f.blue, first, kb))
  }

  /** (red << red_position) | (green << green_position) | (blue << blue_position), in uint32_t. */
  function Pack(f: Format, red: nat, green: nat, blue: nat): uint32 {
    Wrap32(Or(Or(Wrap32(Shl(red, f.red.position)), Wrap32(Shl(green, f.green.position))),
              Wrap32(Shl(blue, f.blue.position))))
  }

  /** ((first & ((position << size) - 1)) + k) % (1 << size), in uint32_t; a remainder modulo a
      power of two is the low bits. */
  function ChannelValue(c: Channel, first: uint32, k: nat): uint32 {
    Wrap32(Low(Wrap32(And(first, Wrap32(Shl(c.position, c.size) - 1)) + k), c.size))
  }

  // One more step of each loop, over the picture it started from.

  lemma LayInk(picture: Picture, ink: Picture, more: Picture, all: Picture)
    requires all == ink + more
    ensures (picture + ink) + more == picture + all
  {
  }

  lemma SpanGrows(f: Format, x: uint16, y: uint16, n: uint16, color: nat)
    ensures SpanInk(f, x, y, n + 1, color) == SpanInk(f, x, y, n, color) + DotInk(f, Wrap16(x + n), y, color)
  {
    forall p | p in OnScreen(f) {
      StepsAhead(p.x, x, n);
    }
  }

  lemma SpanStart(f: Format, was: Picture, x: uint16, y: uint16, color: nat)
    ensures was + SpanInk(f, x, y, 0, color) == was
  {
    assert SpanInk(f, x, y, 0, color) == map[];
  }

  lemma SpanNext(f: Format, was: Picture, x: uint16, y: uint16, n: uint16, color: nat)
    ensures (was + SpanInk(f, x, y, n, color)) + DotInk(f, Wrap16(x + n), y, color)
         == was + SpanInk(f, x, y, n + 1, color)
  {
    SpanGrows(f, x, y, n, color);
    LayInk(was, SpanInk(f, x, y, n, color), DotInk(f, Wrap16(x + n), y, color), SpanInk(f, x, y, n + 1, color));
  }

  lemma BlockGrows(f: Format, x: uint16, y: uint16, width: nat, n: uint16, color: nat)
    ensures BlockInk(f, x, y, width, n + 1, color)
         == BlockInk(f, x, y, width, n, color) + SpanInk(f, x, Wrap16(y + n), width, color)
  {
    forall p | p in OnScreen(f) {
      StepsAhead(p.y, y, n);
    }
  }

  lemma BlockStart(f: Format, was: Picture, x: uint16, y: uint16, width: nat, color: nat)
    ensures was + BlockInk(f, x, y, width, 0, color) == was
  {
    assert BlockInk(f, x, y, width, 0, color) == map[];
  }

  lemma BlockNext(f: Format, was: Picture, x: uint16, y: uint16, width: nat, n: uint16, color: nat)
    ensures (was + BlockInk(f, x, y, width, n, color)) + SpanInk(f, x, Wrap16(y + n), width, color)
         == was + BlockInk(f, x, y, width, n + 1, color)
  {
    BlockGrows(f, x, y, width, n, color);
    LayInk(was, BlockInk(f, x, y, width, n, color), SpanInk(f, x, Wrap16(y + n), width, color),
           BlockInk(f, x, y, width, n + 1, color));
  }

  lemma BlitStart(f: Format, was: Picture, img: Sprite, x: uint16, y: uint16)
    ensures was + BlitInk(f, img, x, y, 0, 0) == was
  {
    assert BlitInk(f, img, x, y, 0, 0) == map[];
  }

  lemma BlitHitsNext(img: Sprite, x: uint16, y: uint16, ix: nat, iy: nat, p: Point)
    requires ix < img.width && iy < img.height
    ensures var here := p.x == Wrap16(x + ix) && p.y == Wrap16(y + iy);
            && (BlitHits(img, x, y, iy, ix + 1, p) <==> BlitHits(img, x, y, iy, ix, p) || here)
            && (here ==> Ahead(p.x, x) == ix && Ahead(p.y, y) == iy)
  {
    StepsAhead(p.x, x, ix);
    StepsAhead(p.y, y, iy);
  }

  lemma BlitGrows(f: Format, img: Sprite, x: uint16, y: uint16, ix: nat, iy: nat)
    requires ix < img.width && iy < img.height
    ensures BlitInk(f, img, x, y, iy, ix + 1)
         == BlitInk(f, img, x, y, iy, ix) + DotInk(f, Wrap16(x + ix), Wrap16(y + iy), img.At(ix, iy))
  {
    forall p | p in OnScreen(f) {
      BlitHitsNext(img, x, y, ix, iy, p);
    }
  }

  lemma BlitNext(f: Format, was: Picture, img: Sprite, x: uint16, y: uint16, ix: nat, iy: nat, k: nat)
    requires ix < img.width && iy < img.height && k == Times(iy, img.width) + ix
    ensures k < |img.pixels|
    ensures (was + BlitInk(f, img, x, y, iy, ix)) + DotInk(f, Wrap16(x + ix), Wrap16(y + iy), img.pixels[k])
         == was + BlitInk(f, img, x, y, iy, ix + 1)
  {
    RowMajorBound(ix, iy, img.width, img.height);
    BlitGrows(f, img, x, y, ix, iy);
    LayInk(was, BlitInk(f, img, x, y, iy, ix), DotInk(f, Wrap16(x + ix), Wrap16(y + iy), img.At(ix, iy)),
           BlitInk(f, img, x, y, iy, ix + 1));
  }

  /** A finished row of pixels. */
  lemma BlitRow(f: Format, was: Picture, img: Sprite, x: uint16, y: uint16, iy: nat)
    ensures was + BlitInk(f, img, x, y, iy, img.width) == was + BlitInk(f, img, x, y, iy + 1, 0)
  {
    assert forall p :: BlitHits(img, x, y, iy, img.width, p) <==> BlitHits(img, x, y, iy + 1, 0, p);
    assert BlitInk(f, img, x, y, iy, img.width) == BlitInk(f, img, x, y, iy + 1, 0);
  }

  lemma TileFits(resolution: uint16, n: TileCount, t: nat)
    requires t < n
    ensures Times(t, TileSide(resolution, n)) + TileSide(resolution, n) <= Times(n, TileSide(resolution, n)) <= resolution
  {
    var side := TileSide(resolution, n);
    TimesGap(t, n, side);
    TimesMonotone(n, side, Quotient(resolution, n));
    TimesIsProduct(n, Quotient(resolution, n));
    TimesIsProduct(Quotient(resolution, n), n);
    QuotientRemainder(resolution, n);
  }

  /** A tile lies on the screen and neither wraps nor clips, so its span is a plain quotient class. */
  lemma TileSpan(resolution: uint16, n: TileCount, t: nat, start: uint16, c: uint16)
    requires t < n && c < resolution && start == Times(t, TileSide(resolution, n))
    ensures var side := TileSide(resolution, n);
            Ahead(c, start) < side <==> side > 0 && Quotient(c, side) == t
  {
    TileFits(resolution, n, t);
    if TileSide(resolution, n) > 0 {
      QuotientUnique(c, TileSide(resolution, n), t);
    }
  }

  lemma TilesHitNext(f: Format, n: TileCount, nx: nat, ny: nat, x: uint16, y: uint16, p: Point)
    requires nx < n && ny < n && p in OnScreen(f)
    requires x == Times(nx, TileSide(f.xRes, n)) && y == Times(ny, TileSide(f.yRes, n))
    ensures var w, h := TileSide(f.xRes, n), TileSide(f.yRes, n);
            var here := Ahead(p.x, x) < w && Ahead(p.y, y) < h;
            && (TilesHit(f, n, ny, nx + 1, p) <==> TilesHit(f, n, ny, nx, p) || here)
            && (here ==> w > 0 && h > 0 && Quotient(p.x, w) == nx && Quotient(p.y, h) == ny)
  {
    TileSpan(f.xRes, n, nx, x, p.x);
    TileSpan(f.yRes, n, ny, y, p.y);
  }

  lemma TilesGrowAt(f: Format, n: TileCount, first: uint32, step: uint8, nx: nat, ny: nat, x: uint16, y: uint16, p: Point)
    requires nx < n && ny < n && p in OnScreen(f)
    requires x == Times(nx, TileSide(f.xRes, n)) && y == Times(ny, TileSide(f.yRes, n))
    ensures var tile := BlockInk(f, x, y, TileSide(f.xRes, n), TileSide(f.yRes, n), TileColor(f, n, first, step, nx, ny));
            var before := TilesInk(f, n, first, step, ny, nx);
            var after := TilesInk(f, n, first, step, ny, nx + 1);
            && (p in after <==> p in before || p in tile)
            && (p in tile ==> after[p] == tile[p])
            && (p in before ==> after[p] == before[p])
  {
    TilesHitNext(f, n, nx, ny, x, y, p);
  }

  lemma TilesGrow(f: Format, n: TileCount, first: uint32, step: uint8, nx: nat, ny: nat, x: uint16, y: uint16)
    requires nx < n && ny < n
    requires x == Times(nx, TileSide(f.xRes, n)) && y == Times(ny, TileSide(f.yRes, n))
    ensures TilesInk(f, n, first, step, ny, nx + 1)
         == TilesInk(f, n, first, step, ny, nx)
            + BlockInk(f, x, y, TileSide(f.xRes, n), TileSide(f.yRes, n), TileColor(f, n, first, step, nx, ny))
  {
    forall p | p in OnScreen(f) {
      TilesGrowAt(f, n, first, step, nx, ny, x, y, p);
    }
  }

  lemma TilesStart(f: Format, was: Picture, n: TileCount, first: uint32, step: uint8)
    ensures was + TilesInk(f, n, first, step, 0, 0) == was
  {
    assert TilesInk(f, n, first, step, 0, 0) == map[];
  }

  lemma TilesNext(f: Format, was: Picture, n: TileCount, first: uint32, step: uint8, nx: nat, ny: nat)
    requires nx < n && ny < n
    ensures var w, h := TileSide(f.xRes, n), TileSide(f.yRes, n);
            var tile := BlockInk(f, TileOrigin(nx, w), TileOrigin(ny, h), w, h, TileColor(f, n, first, step, nx, ny));
            (was + TilesInk(f, n, first, step, ny, nx)) + tile
              == was + TilesInk(f, n, first, step, ny, nx + 1)
  {
    var w, h := TileSide(f.xRes, n), TileSide(f.yRes, n);
    var x, y := TileOrigin(nx, w), TileOrigin(ny, h);
    TileStart(f.xRes, n, nx);
    TileStart(f.yRes, n, ny);
    TilesGrow(f, n, first, step, nx, ny, x, y);
    LayInk(was, TilesInk(f, n, first, step, ny, nx), BlockInk(f, x, y, w, h, TileColor(f, n, first, step, nx, ny)),
           TilesInk(f, n, first, step, ny, nx + 1));
  }

  /** A finished row of tiles. */
  lemma TilesRow(f: Format, was: Picture, n: TileCount, first: uint32, step: uint8, ny: nat)
    ensures was + TilesInk(f, n, first, step, ny, n) == was + TilesInk(f, n, first, step, ny + 1, 0)
  {
    assert forall p :: TilesHit(f, n, ny, n, p) <==> TilesHit(f, n, ny + 1, 0, p);
    assert TilesInk(f, n, first, step, ny, n) == TilesInk(f, n, first, step, ny + 1, 0);
  }

  /** The product that places a tile fits uint16_t. */
  lemma TileStart(resolution: uint16, n: TileCount, t: nat)
    requires t < n
    ensures TileOrigin(t, TileSide(resolution, n)) == Times(t, TileSide(resolution, n))
  {
    TimesIsProduct(t, TileSide(resolution, n));
    TileFits(resolution, n, t);
  }
}
