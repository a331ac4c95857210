/** Rendering one frame of an animation. */
module Frames {
  import opened CTypes
  import opened Pictures
  import opened Commands
  import opened Rasteriser

  type Divisor = n: int | 0 < n < 0x1_0000 witness 1

  /** The sprite at (x, y) on a black screen. */
  function Frame(f: Format, img: Sprite, at: Point): Picture {
    Black(f) + Ink(f, DrawXpm(img, at.x, at.y))
  }

  /** A frame shows the image's pixels less than its width and height ahead of (x, y), and is black
      everywhere else on the screen. */
  lemma FrameClosedForm(f: Format, img: Sprite, at: Point, p: Point)
    requires f.Supported() && p in OnScreen(f)
    ensures var dx, dy := Ahead(p.x, at.x), Ahead(p.y, at.y);
            && Frame(f, img, at).Keys == OnScreen(f)
            && Frame(f, img, at)[p] == if dx < img.width && dy < img.height then img.At(dx, dy) else 0
  {
    ImageClosedForm(f, img, at.x, at.y, p);
  }

  /** What the screen shows when the frames drawn so far were at these positions. */
  function Shown(f: Format, img: Sprite, before: Picture, frames: seq<Point>): Picture {
    if frames == [] then before else Frame(f, img, frames[|frames| - 1])
  }

  method RenderFrame(gpu: Gpu, img: Sprite, x: uint16, y: uint16)
    requires gpu.Valid()
    modifies gpu, gpu.backbuffer, gpu.videoMem
    ensures gpu.Valid()
    ensures gpu.screen == gpu.picture == Frame(gpu.format, img, Point(x, y))
  {
    gpu.ClearAll();
    gpu.DrawXpm(img, x, y);
    gpu.Commit();
  }
}
