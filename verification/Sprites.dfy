/** Sprites at signed positions, blitted through uint16_t coordinates. */
module Sprites {
  import opened CTypes
  import opened Pictures
  import opened Commands

  predicate Int16(n: int) {
    -0x8000 <= n < 0x8000
  }

  /** The on-screen part of a sprite whose top left corner is at the signed position (sx, sy). */
  function SignedInk(f: Format, img: Sprite, sx: int, sy: int): Picture {
    map p | p in OnScreen(f) && Covers(img, sx, sy, p) :: Stored(f, SignedPixel(img, sx, sy, p))
  }

  function SignedPixel(img: Sprite, sx: int, sy: int, p: Point): uint8
    requires Covers(img, sx, sy, p)
  {
    img.At(p.x - sx, p.y - sy)
  }

  predicate Covers(img: Sprite, sx: int, sy: int, p: Point) {
    0 <= p.x - sx < img.width && 0 <= p.y - sy < img.height
  }

  /** Along one axis: blitting at the wrapped position hits what the signed position covers. */
  lemma AxisFaithful(c: uint16, s: int, x: uint16, resolution: uint16, side: uint16)
    requires Int16(s) && x == Wrap16(s) && c < resolution <= 0x8000 && side <= 0x8001
    ensures Ahead(c, x) < side <==> 0 <= c - s < side
    ensures Ahead(c, x) < side ==> Ahead(c, x) == c - s
  {
  }

  /** The point is hit at the signed position exactly when it is hit at (x, y), by the same pixel. */
  predicate SameHit(img: Sprite, sx: int, sy: int, x: uint16, y: uint16, p: Point) {
    && (BlitHits(img, x, y, img.height, 0, p) <==> Covers(img, sx, sy, p))
    && (Covers(img, sx, sy, p) ==> SignedPixel(img, sx, sy, p) == img.At(Ahead(p.x, x), Ahead(p.y, y)))
  }

  lemma SignedHits(f: Format, img: Sprite, sx: int, sy: int, x: uint16, y: uint16, p: Point)
    requires f.xRes <= 0x8000 && f.yRes <= 0x8000 && img.width <= 0x8001 && img.height <= 0x8001
    requires Int16(sx) && Int16(sy) && x == Wrap16(sx) && y == Wrap16(sy) && p in OnScreen(f)
    ensures SameHit(img, sx, sy, x, y, p)
  {
    AxisFaithful(p.x, sx, x, f.xRes, img.width);
    AxisFaithful(p.y, sy, y, f.yRes, img.height);
  }

  lemma SameHitsSameInk(f: Format, img: Sprite, sx: int, sy: int, x: uint16, y: uint16)
    requires forall p :: p in OnScreen(f) ==> SameHit(img, sx, sy, x, y, p)
    ensures BlitInk(f, img, x, y, img.height, 0) == SignedInk(f, img, sx, sy)
  {
  }

  /** Sprites no larger than half the coordinate range, on a screen no larger than half of it, are
      clipped correctly at every signed position, however far outside. */
  lemma SignedSprite(f: Format, img: Sprite, sx: int, sy: int)
    requires f.xRes <= 0x8000 && f.yRes <= 0x8000 && img.width <= 0x8001 && img.height <= 0x8001
    requires Int16(sx) && Int16(sy)
    ensures Ink(f, DrawXpm(img, Wrap16(sx), Wrap16(sy))) == SignedInk(f, img, sx, sy)
  {
    var x, y := Wrap16(sx), Wrap16(sy);
    forall p | p in OnScreen(f) {
      SignedHits(f, img, sx, sy, x, y, p);
    }
    SameHitsSameInk(f, img, sx, sy, x, y);
  }

  /** Every signed position is drawn correctly. */
  ghost predicate Faithful(f: Format, img: Sprite) {
    forall sx, sy :: Int16(sx) && Int16(sy) ==>
      Ink(f, DrawXpm(img, Wrap16(sx), Wrap16(sy))) == SignedInk(f, img, sx, sy)
  }

  /** Beyond those sizes a sprite that should be off the screen shows through on the other side. */
  lemma Unfaithful(f: Format, img: Sprite, p: Point, sx: int, sy: int)
    requires Int16(sx) && Int16(sy) && p in OnScreen(f)
    requires Ahead(p.x, Wrap16(sx)) < img.width && Ahead(p.y, Wrap16(sy)) < img.height
    requires !Covers(img, sx, sy, p)
    ensures !Faithful(f, img)
  {
    assert p in Ink(f, DrawXpm(img, Wrap16(sx), Wrap16(sy)));
    assert p !in SignedInk(f, img, sx, sy);
  }

  /** The exact sizes for which wrapped coordinates stand for signed ones. */
  lemma FaithfulExactly(f: Format, img: Sprite)
    requires f.xRes > 0 && f.yRes > 0 && img.width > 0 && img.height > 0
    ensures Faithful(f, img) <==> f.xRes <= 0x8000 && f.yRes <= 0x8000 && img.width <= 0x8001 && img.height <= 0x8001
  {
    if f.xRes > 0x8000 {
      Unfaithful(f, img, Point(0x8000, 0), -0x8000, 0);
    } else if f.yRes > 0x8000 {
      Unfaithful(f, img, Point(0, 0x8000), 0, -0x8000);
    } else if img.width > 0x8001 {
      Unfaithful(f, img, Point(0, 0), 0x7FFF, 0);
    } else if img.height > 0x8001 {
      Unfaithful(f, img, Point(0, 0), 0, 0x7FFF);
    } else {
      forall sx, sy | Int16(sx) && Int16(sy)
        ensures Ink(f, DrawXpm(img, Wrap16(sx), Wrap16(sy))) == SignedInk(f, img, sx, sy)
      {
        SignedSprite(f, img, sx, sy);
      }
    }
  }
}
