/** Sequences of drawing commands, and what they leave on the screen. */
module Commands {
  import opened CTypes
  import opened Arithmetic
  import opened Pictures
  import opened Colors

  datatype Command =
    | DrawPixel(x: uint16, y: uint16, color: uint32)
    | DrawHLine(x: uint16, y: uint16, len: uint16, color: uint32)
    | DrawRectangle(x: uint16, y: uint16, width: uint16, height: uint16, color: uint32)
    | DrawPattern(n: TileCount, first: uint32, step: uint8)
    | DrawXpm(img: Sprite, x: uint16, y: uint16)
    | Clear

  predicate Defined(f: Format, cmd: Command) {
    cmd.DrawPattern? ==> f.PatternDefined()
  }

  function Ink(f: Format, cmd: Command): Picture {
    match cmd
    case DrawPixel(x, y, color) => DotInk(f, x, y, color)
    case DrawHLine(x, y, len, color) => SpanInk(f, x, y, len, color)
    case DrawRectangle(x, y, width, height, color) => BlockInk(f, x, y, width, height, color)
    case DrawPattern(n, first, step) => TilesInk(f, n, first, step, n, 0)
    case DrawXpm(img, x, y) => BlitInk(f, img, x, y, img.height, 0)
    case Clear => BlockInk(f, 0, 0, f.xRes, f.yRes, 0)
  }

  /** Layers of ink over a picture, first layer first. */
  function Overlay(picture: Picture, inks: seq<Picture>): Picture {
    if inks == [] then picture
    else Overlay(picture, inks[..|inks| - 1]) + inks[|inks| - 1]
  }

  function Inks(f: Format, cmds: seq<Command>): (inks: seq<Picture>)
    ensures |inks| == |cmds|
  {
    seq(|cmds|, i requires 0 <= i < |cmds| => Ink(f, cmds[i]))
  }

  /** The picture after a sequence of commands. */
  function Draw(f: Format, picture: Picture, cmds: seq<Command>): Picture {
    Overlay(picture, Inks(f, cmds))
  }

  lemma DrawOneMore(f: Format, picture: Picture, cmds: seq<Command>, cmd: Command)
    ensures Draw(f, picture, cmds + [cmd]) == Draw(f, picture, cmds) + Ink(f, cmd)
  {
    assert Inks(f, cmds + [cmd]) == Inks(f, cmds) + [Ink(f, cmd)];
  }

  ghost predicate LastLayer(inks: seq<Picture>, i: int, p: Point) {
    0 <= i < |inks| && p in inks[i] && forall j :: i < j < |inks| ==> p !in inks[j]
  }

  /** The colour is the one the last layer that marks p has there, or the one underneath them all. */
  ghost predicate TopColor(picture: Picture, inks: seq<Picture>, p: Point, color: nat)
    requires p in picture
  {
    || (color == picture[p] && forall i :: 0 <= i < |inks| ==> p !in inks[i])
    || exists i :: LastLayer(inks, i, p) && color == inks[i][p]
  }

  lemma {:induction false} TopLayerShows(picture: Picture, inks: seq<Picture>, p: Point)
    requires p in picture
    ensures p in Overlay(picture, inks) && TopColor(picture, inks, p, Overlay(picture, inks)[p])
  {
    if inks != [] {
      var last := |inks| - 1;
      var under := inks[..last];
      TopLayerShows(picture, under, p);
      var color := Overlay(picture, under)[p];
      if p in inks[last] {
        assert LastLayer(inks, last, p);
      } else if i :| LastLayer(under, i, p) && color == under[i][p] {
        assert LastLayer(inks, i, p);
      } else {
        assert forall i :: 0 <= i < last ==> p !in under[i];
      }
    }
  }

  /** After any sequence of commands, a pixel shows the colour of the last command that marks it,
      and is as it was when none does. */
  lemma LastWriterWins(f: Format, picture: Picture, cmds: seq<Command>, p: Point)
    requires p in picture
    ensures p in Draw(f, picture, cmds) && TopColor(picture, Inks(f, cmds), p, Draw(f, picture, cmds)[p])
  {
    TopLayerShows(picture, Inks(f, cmds), p);
  }

  lemma {:induction false} CoveredIsForgotten(before: Picture, before': Picture, cover: Picture, inks: seq<Picture>)
    requires before.Keys <= cover.Keys && before'.Keys <= cover.Keys
    ensures Overlay(before, [cover] + inks) == Overlay(cover, inks) == Overlay(before', [cover] + inks)
  {
    var all := [cover] + inks;
    if inks == [] {
      assert all[..0] == [];
      assert before + cover == cover && before' + cover == cover;
    } else {
      CoveredIsForgotten(before, before', cover, inks[..|inks| - 1]);
      assert all[..|all| - 1] == [cover] + inks[..|inks| - 1];
    }
  }

  /** Whatever was there before, drawing after a clear gives the same picture. */
  lemma ClearForgets(f: Format, before: Picture, before': Picture, cmds: seq<Command>)
    requires before.Keys == before'.Keys == OnScreen(f)
    ensures Draw(f, before, [Clear] + cmds) == Draw(f, before', [Clear] + cmds)
  {
    assert Inks(f, [Clear] + cmds) == [Ink(f, Clear)] + Inks(f, cmds);
    ClearCovers(f);
    CoveredIsForgotten(before, before', Ink(f, Clear), Inks(f, cmds));
  }

  lemma ClearCovers(f: Format)
    ensures Ink(f, Clear) == Black(f)
  {
    StoredIsRemainder(f, 0);
    DivModUnique(0, Pow256(f.BytesPerPixel()), 0, 0);
  }

  lemma ClearPaints(f: Format, was: Picture)
    requires was.Keys == OnScreen(f)
    ensures was + BlockInk(f, 0, 0, f.xRes, f.yRes, 0) == Black(f)
  {
    ClearCovers(f);
  }

  /** Loop counters (i, j) of a rectangle at (x, y) draw the point p. */
  predicate Visits(x: uint16, y: uint16, i: uint16, j: uint16, p: Point) {
    p == Point(Wrap16(x + i), Wrap16(y + j))
  }

  lemma VisitedOnce(x: uint16, y: uint16, i: uint16, j: uint16, p: Point)
    ensures Visits(x, y, i, j, p) <==> i == Ahead(p.x, x) && j == Ahead(p.y, y)
  {
    StepsAhead(p.x, x, i);
    StepsAhead(p.y, y, j);
  }

  /** A rectangle marks exactly the on-screen points its loops visit, each with the colour as far as
      it fits a pixel, and the loop counters that visit a point are determined by it: no point is
      drawn twice, whatever wraps around. */
  lemma RectangleFootprint(f: Format, x: uint16, y: uint16, width: uint16, height: uint16, color: uint32, p: Point)
    requires p in OnScreen(f)
    ensures p in Ink(f, DrawRectangle(x, y, width, height, color)) <==>
      exists i: uint16, j: uint16 :: i < width && j < height && Visits(x, y, i, j, p)
    ensures var ink := Ink(f, DrawRectangle(x, y, width, height, color));
            p in ink ==> ink[p] == color % Pow256(f.BytesPerPixel())
    ensures forall i: uint16, j: uint16, i': uint16, j': uint16 ::
      Visits(x, y, i, j, p) && Visits(x, y, i', j', p) ==> i == i' && j == j'
  {
    forall i: uint16, j: uint16
      ensures Visits(x, y, i, j, p) <==> i == Ahead(p.x, x) && j == Ahead(p.y, y)
    {
      VisitedOnce(x, y, i, j, p);
    }
    assert Visits(x, y, Ahead(p.x, x), Ahead(p.y, y), p);
    StoredIsRemainder(f, color);
  }

  /** A line is a rectangle of height 1, and a pixel is one of width 1 as well. */
  lemma LineIsRectangle(f: Format, x: uint16, y: uint16, len: uint16, color: uint32)
    ensures Ink(f, DrawHLine(x, y, len, color)) == Ink(f, DrawRectangle(x, y, len, 1, color))
    ensures Ink(f, DrawPixel(x, y, color)) == Ink(f, DrawRectangle(x, y, 1, 1, color))
  {
    assert SpanInk(f, x, y, len, color) == BlockInk(f, x, y, len, 1, color);
    assert DotInk(f, x, y, color) == BlockInk(f, x, y, 1, 1, color);
  }

  lemma PatternAxis(resolution: uint16, n: TileCount, c: uint16)
    ensures var side := TileSide(resolution, n);
            && n * side <= resolution
            && (c < n * side <==> side > 0 && Quotient(c, side) < n)
  {
    var side := TileSide(resolution, n);
    TileFits(resolution, n, n - 1);
    TimesIsProduct(n, side);
    if side > 0 {
      QuotientBelow(c, side, n);
    }
  }

  lemma PatternAt(f: Format, n: TileCount, first: uint32, step: uint8, p: Point)
    requires p in OnScreen(f)
    ensures n * TileSide(f.xRes, n) <= f.xRes && n * TileSide(f.yRes, n) <= f.yRes
    ensures p in Ink(f, DrawPattern(n, first, step)) <==>
      p.x < n * TileSide(f.xRes, n) && p.y < n * TileSide(f.yRes, n)
  {
    PatternAxis(f.xRes, n, p.x);
    PatternAxis(f.yRes, n, p.y);
  }

  lemma TileSideIsTruncated(resolution: uint16, n: TileCount)
    ensures TileSide(resolution, n) == (resolution / n) % 0x100
  {
    QuotientIsDivision(resolution, n);
  }

  /** The pattern covers exactly the n * w by n * h corner of the screen, where w and h are the
      quotients of the resolution by n truncated to a byte. */
  lemma PatternClosedForm(f: Format, n: TileCount, first: uint32, step: uint8, p: Point, w: nat, h: nat)
    requires p in OnScreen(f)
    requires w == (f.xRes / n) % 0x100 && h == (f.yRes / n) % 0x100
    ensures n * w <= f.xRes && n * h <= f.yRes
    ensures p in Ink(f, DrawPattern(n, first, step)) <==> p.x < n * w && p.y < n * h
  {
    TileSideIsTruncated(f.xRes, n);
    TileSideIsTruncated(f.yRes, n);
    PatternAt(f, n, first, step, p);
  }

  /** Tile (nx, ny) of it starts at (nx * w, ny * h), is w wide and h high, and has its own colour. */
  lemma PatternColors(f: Format, n: TileCount, first: uint32, step: uint8, p: Point, w: nat, h: nat, nx: nat, ny: nat)
    requires p in OnScreen(f) && nx < n && ny < n
    requires w == (f.xRes / n) % 0x100 && h == (f.yRes / n) % 0x100
    requires nx * w <= p.x < nx * w + w && ny * h <= p.y < ny * h + h
    ensures p in Ink(f, DrawPattern(n, first, step))
    ensures Ink(f, DrawPattern(n, first, step))[p] == Stored(f, TileColor(f, n, first, step, nx, ny))
  {
    TileSideIsTruncated(f.xRes, n);
    TileSideIsTruncated(f.yRes, n);
    TilePlace(p.x, w, nx);
    TilePlace(p.y, h, ny);
  }

  lemma TilePlace(c: nat, side: nat, t: nat)
    requires t * side <= c < t * side + side
    ensures side > 0 && Quotient(c, side) == t
  {
    TimesIsProduct(t, side);
    QuotientUnique(c, side, t);
  }

  /** In each direction n tiles fill the screen up to the last multiple of n exactly when the tile
      size is not truncated; a truncated size leaves out at least the last point before it. */
  lemma PatternFillsAxis(resolution: uint16, n: TileCount)
    requires resolution >= n
    ensures 0 < n * (resolution / n) <= resolution
    ensures resolution / n < 0x100 ==> n * TileSide(resolution, n) == n * (resolution / n)
    ensures resolution / n >= 0x100 ==> n * TileSide(resolution, n) < n * (resolution / n)
  {
    var side, full := TileSide(resolution, n), resolution / n;
    QuotientIsDivision(resolution, n);
    DivisionBound(resolution, n);
    if full >= 0x100 {
      TruncatedIsLess(side, full, n);
    }
  }

  lemma TruncatedIsLess(side: nat, full: nat, n: nat)
    requires side < full && 0 < n
    ensures n * side < n * full
  {
    MulMonotone(side + 1, full, n);
  }

  lemma DivisionBound(resolution: nat, n: nat)
    requires 0 < n <= resolution
    ensures 0 < n * (resolution / n) <= resolution
  {
    MulMonotone(1, resolution / n, n);
  }

  /** The points of the n by n grid of whole tiles that the screen has room for. */
  predicate InGrid(f: Format, n: TileCount, p: Point) {
    p.x < n * (f.xRes / n) && p.y < n * (f.yRes / n)
  }

  /** A pattern fills the grid of whole tiles exactly when both tile sizes fit a byte. */
  lemma PatternFillsGrid(f: Format, n: TileCount, first: uint32, step: uint8)
    requires f.xRes >= n && f.yRes >= n
    ensures (forall p: Point :: InGrid(f, n, p) ==> p in Ink(f, DrawPattern(n, first, step)))
       <==> f.xRes / n < 0x100 && f.yRes / n < 0x100
  {
    PatternFillsAxis(f.xRes, n);
    PatternFillsAxis(f.yRes, n);
    var ink := Ink(f, DrawPattern(n, first, step));
    if f.xRes / n < 0x100 && f.yRes / n < 0x100 {
      forall p: Point | InGrid(f, n, p)
        ensures p in ink
      {
        PatternAt(f, n, first, step, p);
      }
    } else {
      var last := Point(n * (f.xRes / n) - 1, n * (f.yRes / n) - 1);
      PatternAt(f, n, first, step, last);
      assert InGrid(f, n, last) && last !in ink;
    }
  }

  /** A pattern draws nothing exactly when a tile size is a multiple of 256, 0 included. */
  lemma PatternVanishes(f: Format, n: TileCount, first: uint32, step: uint8)
    ensures Ink(f, DrawPattern(n, first, step)) == map[] <==> (f.xRes / n) % 0x100 == 0 || (f.yRes / n) % 0x100 == 0
  {
    TileSideIsTruncated(f.xRes, n);
    TileSideIsTruncated(f.yRes, n);
    var ink, w, h := Ink(f, DrawPattern(n, first, step)), TileSide(f.xRes, n), TileSide(f.yRes, n);
    if w > 0 && h > 0 {
      CornerIsMarked(f, n, first, step);
    } else {
      assert forall p: Point :: p !in ink;
    }
  }

  lemma CornerIsMarked(f: Format, n: TileCount, first: uint32, step: uint8)
    requires TileSide(f.xRes, n) > 0 && TileSide(f.yRes, n) > 0
    ensures Point(0, 0) in Ink(f, DrawPattern(n, first, step))
  {
    QuotientBound(f.xRes, n);
    QuotientBound(f.yRes, n);
  }

  /** At 1024 by 768 this is the case for each of 1, 2, 3 and 4 rectangles a side. */
  lemma FewTilesDrawNothing(f: Format, n: TileCount, first: uint32, step: uint8)
    requires f.xRes == 1024 && f.yRes == 768 && n <= 4
    ensures Ink(f, DrawPattern(n, first, step)) == map[]
  {
    assert 1024 / 1 == 1024 && 1024 / 2 == 512 && 768 / 3 == 256 && 1024 / 4 == 256;
    assert (f.xRes / n) % 0x100 == 0 || (f.yRes / n) % 0x100 == 0;
    PatternVanishes(f, n, first, step);
  }

  lemma ImageIsRowMajor(img: Sprite, dx: nat, dy: nat)
    requires dx < img.width && dy < img.height
    ensures |img.pixels| == img.width * img.height
    ensures dy * img.width + dx < |img.pixels| && img.At(dx, dy) == img.pixels[dy * img.width + dx]
  {
    TimesIsProduct(img.height, img.width);
    TimesIsProduct(dy, img.width);
    RowMajorBound(dx, dy, img.width, img.height);
  }

  /** An image marks the points of its frame, each with its own pixel of the array. */
  lemma ImageClosedForm(f: Format, img: Sprite, x: uint16, y: uint16, p: Point)
    requires f.Supported() && p in OnScreen(f)
    ensures var dx, dy := Ahead(p.x, x), Ahead(p.y, y);
            var ink := Ink(f, DrawXpm(img, x, y));
            && (p in ink <==> dx < img.width && dy < img.height)
            && (p in ink ==> ink[p] == img.At(dx, dy))
  {
    var dx, dy := Ahead(p.x, x), Ahead(p.y, y);
    if dx < img.width && dy < img.height {
      assert Ink(f, DrawXpm(img, x, y))[p] == Stored(f, img.At(dx, dy));
      ByteStored(f, img.At(dx, dy));
    }
  }
}
