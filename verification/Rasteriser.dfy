/** The software rasteriser with its double buffer. */
module Rasteriser {
  import opened CTypes
  import opened Arithmetic
  import opened Bits
  import opened Pictures
  import opened Buffers
  import opened Commands

  class Gpu {
    const format: Format
    const vramSize: uint32
    const backbuffer: array<uint8>
    const videoMem: array<uint8>

    /** The picture being drawn and the picture being shown. */
    ghost var picture: Picture
    ghost var screen: Picture

    ghost predicate Valid()
      reads this, backbuffer, videoMem
    {
      && format.Supported()
      && backbuffer != videoMem
      && vramSize == format.VramSize()
      && Mirrors(format, backbuffer[..], picture)
      && Mirrors(format, videoMem[..], screen)
    }

    /** Sizes both buffers from the mode information; neither is cleared. */
    constructor InitMemIndexation(info: Format)
      requires info.Supported()
      ensures Valid() && format == info
      ensures fresh(backbuffer) && fresh(videoMem)
      ensures backbuffer.Length == videoMem.Length == vramSize == info.xRes * info.yRes * info.BytesPerPixel()
    {
      format := info;
      TimesIsProduct(info.yRes, info.xRes);
      TimesIsProduct(Times(info.yRes, info.xRes), info.BytesPerPixel());
      vramSize := info.xRes * info.yRes * info.BytesPerPixel();
      videoMem := new uint8[info.VramSize()];
      backbuffer := new uint8[info.VramSize()];
      new;
      picture := Decode(format, backbuffer[..]);
      screen := Decode(format, videoMem[..]);
      MirrorsIsDecode(format, backbuffer[..], picture);
      MirrorsIsDecode(format, videoMem[..], screen);
    }

    method DrawPixel(x: uint16, y: uint16, color: uint32)
      requires Valid()
      modifies backbuffer, `picture
      ensures Valid()
      ensures picture == old(picture) + DotInk(format, x, y, color)
      ensures PixelStored(format, old(backbuffer[..]), backbuffer[..], x, y, color)
    {
      if x >= format.xRes || y >= format.yRes {
        assert picture + DotInk(format, x, y, color) == picture;
        return;
      }
      var bytesPerPixel := format.BytesPerPixel();
      var location := (y * format.xRes + x) * bytesPerPixel;
      ghost var p, was := Point(x, y), backbuffer[..];
      TimesIsProduct(y, format.xRes);
      TimesIsProduct(PixelIndex(format, p), bytesPerPixel);
      OffsetFits(format, p);
      var word := WriteLE(color, 4);
      WritePrefix(color, bytesPerPixel, 4);
      forall k | 0 <= k < bytesPerPixel {
        backbuffer[location + k] := word[k];
      }
      assert videoMem[..] == old(videoMem[..]);
      assert Cell(format, backbuffer[..], p) == word[..bytesPerPixel];
      CellStored(format, was, backbuffer[..], picture, p, x, y, color);
      CellIsStored(format, was, backbuffer[..], p, color);
      picture := picture + DotInk(format, x, y, color);
    }

    method DrawHLine(x: uint16, y: uint16, len: uint16, color: uint32)
      requires Valid()
      modifies backbuffer, `picture
      ensures Valid()
      ensures picture == old(picture) + SpanInk(format, x, y, len, color)
    {
      ghost var was := picture;
      SpanStart(format, was, x, y, color);
      for n := 0 to len
        invariant Valid()
        invariant picture == was + SpanInk(format, x, y, n, color)
      {
        DrawPixel(Wrap16(x + n), y, color);
        SpanNext(format, was, x, y, n, color);
      }
    }

    method DrawRectangle(x: uint16, y: uint16, width: uint16, height: uint16, color: uint32)
      requires Valid()
      modifies backbuffer, `picture
      ensures Valid()
      ensures picture == old(picture) + BlockInk(format, x, y, width, height, color)
    {
      ghost var was := picture;
      BlockStart(format, was, x, y, width, color);
      for n := 0 to height
        invariant Valid()
        invariant picture == was + BlockInk(format, x, y, width, n, color)
      {
        DrawHLine(x, Wrap16(y + n), width, color);
        BlockNext(format, was, x, y, width, n, color);
      }
    }

    method DrawPattern(noRectangles: TileCount, first: uint32, step: uint8)
      requires Valid() && format.PatternDefined()
      modifies backbuffer, `picture
      ensures Valid()
      ensures picture == old(picture) + TilesInk(format, noRectangles, first, step, noRectangles, 0)
    {
      ghost var was := picture;
      var sizeX := TileSide(format.xRes, noRectangles);
      var sizeY := TileSide(format.yRes, noRectangles);
      TilesStart(format, was, noRectangles, first, step);
      for ny := 0 to noRectangles
        invariant Valid()
        invariant picture == was + TilesInk(format, noRectangles, first, step, ny, 0)
      {
        DrawPatternRow(noRectangles, first, step, ny, sizeX, sizeY, was);
      }
    }

    /** The inner loop of the pattern: row ny of the tiles, drawn after the rows above it. */
    method DrawPatternRow(noRectangles: TileCount, first: uint32, step: uint8, ny: nat, sizeX: uint8, sizeY: uint8,
                          ghost was: Picture)
      requires Valid() && format.PatternDefined() && ny < noRectangles
      requires sizeX == TileSide(format.xRes, noRectangles) && sizeY == TileSide(format.yRes, noRectangles)
      requires picture == was + TilesInk(format, noRectangles, first, step, ny, 0)
      modifies backbuffer, `picture
      ensures Valid()
      ensures picture == was + TilesInk(format, noRectangles, first, step, ny + 1, 0)
    {
      for nx := 0 to noRectangles
        invariant Valid()
        invariant picture == was + TilesInk(format, noRectangles, first, step, ny, nx)
      {
        var y := TileOrigin(ny, sizeY);
        var x := TileOrigin(nx, sizeX);
        var color := TileColor(format, noRectangles, first, step, nx, ny);
        DrawRectangle(x, y, sizeX, sizeY, color);
        TilesNext(format, was, noRectangles, first, step, nx, ny);
      }
      TilesRow(format, was, noRectangles, first, step, ny);
    }

    method DrawXpm(img: Sprite, x: uint16, y: uint16)
      requires Valid()
      modifies backbuffer, `picture
      ensures Valid()
      ensures picture == old(picture) + BlitInk(format, img, x, y, img.height, 0)
    {
      ghost var was := picture;
      var colors := 0;
      BlitStart(format, was, img, x, y);
      for iy := 0 to img.height
        invariant Valid()
        invariant colors == Times(iy, img.width)
        invariant picture == was + BlitInk(format, img, x, y, iy, 0)
      {
        colors := DrawXpmRow(img, x, y, iy, colors, was);
      }
    }

    /** The inner loop of the image: row iy of its pixels, drawn after the rows above it. The pointer
        colors advances by one for every pixel, drawn or clipped. */
    method DrawXpmRow(img: Sprite, x: uint16, y: uint16, iy: nat, colors0: nat, ghost was: Picture)
      returns (colors: nat)
      requires Valid() && iy < img.height && colors0 == Times(iy, img.width)
      requires picture == was + BlitInk(format, img, x, y, iy, 0)
      modifies backbuffer, `picture
      ensures Valid()
      ensures colors == Times(iy + 1, img.width)
      ensures picture == was + BlitInk(format, img, x, y, iy + 1, 0)
    {
      colors := colors0;
      for ix := 0 to img.width
        invariant Valid()
        invariant colors == Times(iy, img.width) + ix
        invariant picture == was + BlitInk(format, img, x, y, iy, ix)
      {
        BlitNext(format, was, img, x, y, ix, iy, colors);
        DrawPixel(Wrap16(x + ix), Wrap16(y + iy), img.pixels[colors]);
        colors := colors + 1;
      }
      BlitRow(format, was, img, x, y, iy);
    }

    /** Copies the drawn picture to the screen. */
    method Commit()
      requires Valid()
      modifies videoMem, `screen
      ensures Valid()
      ensures videoMem[..] == backbuffer[..] && screen == picture
    {
      forall i | 0 <= i < vramSize {
        videoMem[i] := backbuffer[i];
      }
      assert backbuffer[..] == old(backbuffer[..]) && videoMem[..] == backbuffer[..];
      screen := picture;
    }

    method ClearAll()
      requires Valid()
      modifies backbuffer, `picture
      ensures Valid()
      ensures picture == Black(format)
      ensures forall i :: 0 <= i < backbuffer.Length ==> backbuffer[..][i] == 0
    {
      ClearPaints(format, picture);
      DrawRectangle(0, 0, format.xRes, format.yRes, 0x0);
      assert picture == Black(format);
      BlackBytes(format, backbuffer[..], picture);
    }

    method Execute(cmd: Command)
      requires Valid() && Defined(format, cmd)
      modifies backbuffer, `picture
      ensures Valid()
      ensures picture == old(picture) + Ink(format, cmd)
    {
      match cmd
      case DrawPixel(x, y, color) => DrawPixel(x, y, color);
      case DrawHLine(x, y, len, color) => DrawHLine(x, y, len, color);
      case DrawRectangle(x, y, width, height, color) => DrawRectangle(x, y, width, height, color);
      case DrawPattern(n, first, step) => DrawPattern(n, first, step);
      case DrawXpm(img, x, y) => DrawXpm(img, x, y);
      case Clear =>
        ClearPaints(format, picture);
        ClearAll();
    }

    /** Refinement: any command sequence, run on the bytes, is the same sequence drawn on the picture,
        down to the last byte of the buffer. */
    method ExecuteAll(cmds: seq<Command>)
      requires Valid() && forall i :: 0 <= i < |cmds| ==> Defined(format, cmds[i])
      modifies backbuffer, `picture
      ensures Valid()
      ensures picture == Draw(format, old(picture), cmds)
      ensures Draw(format, Decode(format, old(backbuffer[..])), cmds).Keys == OnScreen(format)
      ensures backbuffer[..] == Encode(format, Draw(format, Decode(format, old(backbuffer[..])), cmds))
    {
      MirrorsIsDecode(format, backbuffer[..], picture);
      for i := 0 to |cmds|
        invariant Valid()
        invariant picture == Draw(format, old(picture), cmds[..i])
      {
        Execute(cmds[i]);
        assert cmds[..i + 1] == cmds[..i] + [cmds[i]];
        DrawOneMore(format, old(picture), cmds[..i], cmds[i]);
      }
      assert cmds[..|cmds|] == cmds;
      MirrorsIsDecode(format, backbuffer[..], picture);
      EncodeAfterDecode(format, backbuffer[..]);
    }
  }
}
