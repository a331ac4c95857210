/** The bijection between byte buffers and pictures: pixel (x, y) occupies the bytes_per_pixel
    bytes from (y * x_res + x) * bytes_per_pixel on, least significant byte first. */
module Buffers {
  import opened CTypes
  import opened Arithmetic
  import opened Bits
  import opened Pictures

  function PixelIndex(f: Format, p: Point): nat {
    Times(p.y, f.xRes) + p.x
  }

  function Offset(f: Format, p: Point): nat {
    Times(PixelIndex(f, p), f.BytesPerPixel())
  }

  lemma OffsetFits(f: Format, p: Point)
    requires p in OnScreen(f)
    ensures Offset(f, p) + f.BytesPerPixel() <= f.VramSize()
  {
    RowMajorBound(p.x, p.y, f.xRes, f.yRes);
    TimesGap(PixelIndex(f, p), Times(f.yRes, f.xRes), f.BytesPerPixel());
  }

  lemma OffsetIsProduct(f: Format, p: Point)
    ensures Offset(f, p) == (p.y * f.xRes + p.x) * f.BytesPerPixel()
    ensures f.VramSize() == f.xRes * f.yRes * f.BytesPerPixel()
  {
    TimesIsProduct(p.y, f.xRes);
    TimesIsProduct(PixelIndex(f, p), f.BytesPerPixel());
    TimesIsProduct(f.yRes, f.xRes);
    TimesIsProduct(Times(f.yRes, f.xRes), f.BytesPerPixel());
  }

  /** Distinct pixels never share a byte. */
  lemma PixelsDisjoint(f: Format, p: Point, q: Point)
    requires p in OnScreen(f) && q in OnScreen(f) && p != q
    ensures Offset(f, p) + f.BytesPerPixel() <= Offset(f, q) || Offset(f, q) + f.BytesPerPixel() <= Offset(f, p)
  {
    RowMajorUnique(p.x, p.y, q.x, q.y, f.xRes);
    if PixelIndex(f, p) < PixelIndex(f, q) {
      TimesGap(PixelIndex(f, p), PixelIndex(f, q), f.BytesPerPixel());
    } else {
      TimesGap(PixelIndex(f, q), PixelIndex(f, p), f.BytesPerPixel());
    }
  }

  /** The pixel that byte i belongs to. */
  function PixelOf(f: Format, i: nat): (p: Point)
    requires f.Supported() && i < f.VramSize()
    ensures p in OnScreen(f) && Offset(f, p) <= i < Offset(f, p) + f.BytesPerPixel()
  {
    TimesZero(f.yRes);
    var k := Quotient(i, f.BytesPerPixel());
    QuotientRemainder(i, f.BytesPerPixel());
    QuotientRemainder(k, f.xRes);
    QuotientBelow(i, f.BytesPerPixel(), Times(f.yRes, f.xRes));
    QuotientBelow(k, f.xRes, f.yRes);
    Point(Remainder(k, f.xRes), Quotient(k, f.xRes))
  }

  lemma {:induction false} TimesZero(a: nat)
    ensures Times(a, 0) == 0
  {
    if a > 0 {
      TimesZero(a - 1);
    }
  }

  /** Every byte belongs to exactly one pixel: the pixels' byte ranges tile the buffer. */
  lemma PixelsTileBuffer(f: Format, i: nat, q: Point)
    requires f.Supported() && i < f.VramSize() && q in OnScreen(f)
    ensures Offset(f, q) <= i < Offset(f, q) + f.BytesPerPixel() <==> q == PixelOf(f, i)
  {
    if q != PixelOf(f, i) {
      PixelsDisjoint(f, PixelOf(f, i), q);
    }
  }

  /** The bytes of pixel p. */
  function Cell(f: Format, buffer: seq<uint8>, p: Point): (bytes: seq<uint8>)
    requires |buffer| == f.VramSize() && p in OnScreen(f)
    ensures |bytes| == f.BytesPerPixel()
  {
    OffsetFits(f, p);
    buffer[Offset(f, p)..Offset(f, p) + f.BytesPerPixel()]
  }

  /** The picture that a buffer shows. */
  function Decode(f: Format, buffer: seq<uint8>): (picture: Picture)
    requires |buffer| == f.VramSize()
    ensures picture.Keys == OnScreen(f)
  {
    map p | p in OnScreen(f) :: ReadLE(Cell(f, buffer, p))
  }

  /** The buffer that shows a picture. */
  function Encode(f: Format, picture: Picture): (buffer: seq<uint8>)
    requires f.Supported() && picture.Keys == OnScreen(f)
    ensures |buffer| == f.VramSize()
  {
    seq(f.VramSize(), i requires 0 <= i < f.VramSize() => EncodedByte(f, picture, i))
  }

  function EncodedByte(f: Format, picture: Picture, i: nat): uint8
    requires f.Supported() && picture.Keys == OnScreen(f) && i < f.VramSize()
  {
    var p := PixelOf(f, i);
    WriteLE(picture[p], f.BytesPerPixel())[i - Offset(f, p)]
  }

  /** Byte i of the cell of p is read back from the colour of p. */
  lemma DecodedByte(f: Format, buffer: seq<uint8>, p: Point, i: nat)
    requires |buffer| == f.VramSize() && p in OnScreen(f)
    requires Offset(f, p) <= i < Offset(f, p) + f.BytesPerPixel()
    ensures i < |buffer| && buffer[i] == WriteLE(Decode(f, buffer)[p], f.BytesPerPixel())[i - Offset(f, p)]
  {
    OffsetFits(f, p);
    var cell := Cell(f, buffer, p);
    WriteAfterRead(cell);
    assert cell[i - Offset(f, p)] == buffer[i];
  }

  /** A buffer is determined by the picture it shows. */
  lemma EncodeAfterDecode(f: Format, buffer: seq<uint8>)
    requires f.Supported() && |buffer| == f.VramSize()
    ensures Encode(f, Decode(f, buffer)) == buffer
  {
    var encoded := Encode(f, Decode(f, buffer));
    forall i: nat | i < |buffer|
      ensures encoded[i] == buffer[i]
    {
      DecodedByte(f, buffer, PixelOf(f, i), i);
    }
  }

  /** Every picture whose colours fit is shown by its buffer. */
  lemma DecodeAfterEncode(f: Format, picture: Picture)
    requires f.Supported() && picture.Keys == OnScreen(f)
    requires forall p :: p in picture ==> picture[p] < Pow256(f.BytesPerPixel())
    ensures Decode(f, Encode(f, picture)) == picture
  {
    var buffer := Encode(f, picture);
    forall p | p in OnScreen(f)
      ensures ReadLE(Cell(f, buffer, p)) == picture[p]
    {
      CellOfEncoded(f, picture, p);
      ReadAfterWrite(picture[p], f.BytesPerPixel());
      DivModUnique(picture[p], Pow256(f.BytesPerPixel()), 0, picture[p]);
    }
  }

  lemma ByteOfEncoded(f: Format, picture: Picture, p: Point, k: nat)
    requires f.Supported() && picture.Keys == OnScreen(f) && p in OnScreen(f) && k < f.BytesPerPixel()
    ensures Cell(f, Encode(f, picture), p)[k] == WriteLE(picture[p], f.BytesPerPixel())[k]
  {
    OffsetFits(f, p);
    PixelsTileBuffer(f, Offset(f, p) + k, p);
  }

  lemma CellOfEncoded(f: Format, picture: Picture, p: Point)
    requires f.Supported() && picture.Keys == OnScreen(f) && p in OnScreen(f)
    ensures Cell(f, Encode(f, picture), p) == WriteLE(picture[p], f.BytesPerPixel())
  {
    forall k | 0 <= k < f.BytesPerPixel()
      ensures Cell(f, Encode(f, picture), p)[k] == WriteLE(picture[p], f.BytesPerPixel())[k]
    {
      ByteOfEncoded(f, picture, p, k);
    }
  }

  /** Where the bytes of a picture's colours are in its buffer, and in which order. */
  lemma EncodedBytes(f: Format, picture: Picture, p: Point, k: nat)
    requires f.Supported() && picture.Keys == OnScreen(f) && p in OnScreen(f) && k < f.BytesPerPixel()
    ensures |Encode(f, picture)| == f.xRes * f.yRes * f.BytesPerPixel()
    ensures var i := (p.y * f.xRes + p.x) * f.BytesPerPixel() + k;
            0 <= i < |Encode(f, picture)| && Encode(f, picture)[i] == (picture[p] / Pow256(k)) % 256
  {
    OffsetIsProduct(f, p);
    OffsetFits(f, p);
    ByteOfEncoded(f, picture, p, k);
    ByteOfWord(picture[p], f.BytesPerPixel(), k);
  }

  /** The buffer with one pixel stored in it, byte by byte: those of the pixel at (x, y), if it is on
      the screen, become those of the colour, and every other byte stays. */
  ghost predicate PixelStored(f: Format, was: seq<uint8>, now: seq<uint8>, x: uint16, y: uint16, color: uint32) {
    var b := f.BytesPerPixel();
    var location := (y * f.xRes + x) * b;
    && |was| == |now|
    && (x < f.xRes && y < f.yRes ==> location + b <= |now|)
    && forall i :: 0 <= i < |now| ==>
         now[i] == if x < f.xRes && y < f.yRes && location <= i < location + b then (color / Pow256(i - location)) % 256
                   else was[i]
  }

  lemma CellIsStored(f: Format, was: seq<uint8>, now: seq<uint8>, p: Point, color: uint32)
    requires |was| == |now| == f.VramSize() && p in OnScreen(f)
    requires forall i :: 0 <= i < |was| && !(Offset(f, p) <= i < Offset(f, p) + f.BytesPerPixel()) ==> now[i] == was[i]
    requires Cell(f, now, p) == WriteLE(color, f.BytesPerPixel())
    ensures PixelStored(f, was, now, p.x, p.y, color)
  {
    OffsetIsProduct(f, p);
    OffsetFits(f, p);
    var location := Offset(f, p);
    forall i | location <= i < location + f.BytesPerPixel()
      ensures now[i] == (color / Pow256(i - location)) % 256
    {
      ByteOfWord(color, f.BytesPerPixel(), i - location);
      assert Cell(f, now, p)[i - location] == now[i];
    }
  }

  /** A buffer shows the all-black picture exactly when every byte is zero. */
  lemma BlackBuffer(f: Format, buffer: seq<uint8>, picture: Picture)
    requires f.Supported() && Mirrors(f, buffer, picture)
    ensures (forall p :: p in picture ==> picture[p] == 0) <==> (forall i :: 0 <= i < |buffer| ==> buffer[i] == 0)
  {
    if forall p :: p in picture ==> picture[p] == 0 {
      forall i | 0 <= i < |buffer|
        ensures buffer[i] == 0
      {
        BlackByte(f, buffer, PixelOf(f, i), i);
      }
    }
    if forall i :: 0 <= i < |buffer| ==> buffer[i] == 0 {
      forall p | p in picture
        ensures picture[p] == 0
      {
        OffsetFits(f, p);
        ZeroBytes(Cell(f, buffer, p));
      }
    }
  }

  lemma BlackBytes(f: Format, buffer: seq<uint8>, picture: Picture)
    requires f.Supported() && Mirrors(f, buffer, picture) && picture == Black(f)
    ensures forall i :: 0 <= i < |buffer| ==> buffer[i] == 0
  {
    BlackBuffer(f, buffer, picture);
  }

  lemma BlackByte(f: Format, buffer: seq<uint8>, p: Point, i: nat)
    requires |buffer| == f.VramSize() && p in OnScreen(f) && ReadLE(Cell(f, buffer, p)) == 0
    requires Offset(f, p) <= i < Offset(f, p) + f.BytesPerPixel()
    ensures i < |buffer| && buffer[i] == 0
  {
    OffsetFits(f, p);
    ZeroBytes(Cell(f, buffer, p));
    assert Cell(f, buffer, p)[i - Offset(f, p)] == buffer[i];
  }

  lemma {:induction false} ZeroBytes(s: seq<uint8>)
    ensures ReadLE(s) == 0 <==> forall k :: 0 <= k < |s| ==> s[k] == 0
  {
    if s != [] {
      ZeroBytes(s[1..]);
      assert s == [s[0]] + s[1..];
    }
  }

  /** The buffer shows the picture: every cell holds its pixel's colour. */
  ghost predicate Mirrors(f: Format, buffer: seq<uint8>, picture: Picture) {
    && |buffer| == f.VramSize()
    && picture.Keys == OnScreen(f)
    && forall p {:trigger Cell(f, buffer, p)} :: p in OnScreen(f) ==> ReadLE(Cell(f, buffer, p)) == picture[p]
  }

  lemma MirrorsIsDecode(f: Format, buffer: seq<uint8>, picture: Picture)
    requires |buffer| == f.VramSize()
    ensures Mirrors(f, buffer, picture) <==> picture == Decode(f, buffer)
  {
    if Mirrors(f, buffer, picture) {
      forall p | p in OnScreen(f)
        ensures picture[p] == Decode(f, buffer)[p]
      {
        assert Cell(f, buffer, p) == Cell(f, buffer, p);
      }
    }
  }

  /** Storing the low bytes of a colour in the cell of p puts a dot at p and changes nothing else. */
  lemma CellStored(f: Format, was: seq<uint8>, now: seq<uint8>, picture: Picture, p: Point, x: uint16, y: uint16, color: uint32)
    requires Mirrors(f, was, picture) && |now| == |was|
    requires p in OnScreen(f) && p == Point(x, y)
    requires forall i :: 0 <= i < |was| && !(Offset(f, p) <= i < Offset(f, p) + f.BytesPerPixel()) ==> now[i] == was[i]
    requires Cell(f, now, p) == WriteLE(color, f.BytesPerPixel())
    ensures Mirrors(f, now, picture + DotInk(f, x, y, color))
  {
    forall q | q in OnScreen(f) && q != p
      ensures Cell(f, now, q) == Cell(f, was, q)
    {
      OffsetFits(f, q);
      PixelsDisjoint(f, p, q);
    }
  }
}
