/** What the colour arithmetic of the tile pattern computes, and that it survives the pixel store. */
module Colors {
  import opened CTypes
  import opened Arithmetic
  import opened Bits
  import opened Pictures

  /** 32-bit wrap-around does not disturb the low bits. */
  lemma WrapKeepsLowBits(n: int, size: nat)
    requires size <= 32
    ensures Wrap32(n) % Pow2(size) == n % Pow2(size)
  {
    Pow2At32();
    Pow2Add(32 - size, size);
    ModOfMod(n, Pow2(32 - size), Pow2(size));
  }

  /** The remainder of a wrapped sum modulo 2^size, as it is kept in a uint32_t. */
  lemma LowOfWrapped(n: int, size: nat)
    requires size <= 32
    ensures Wrap32(Low(Wrap32(n), size)) == n % Pow2(size)
  {
    WrapKeepsLowBits(n, size);
    LowIsRemainder(Wrap32(n), size);
    LowBound(Wrap32(n), size);
    WrapFits(Low(Wrap32(n), size));
  }

  /** (position << size) - 1 ends in size ones, also when position is 0 and the mask is all ones. */
  lemma ChannelMask(c: Channel)
    requires c.ShiftsDefined()
    ensures Low(Wrap32(Shl(c.position, c.size) - 1), c.size) == Pow2(c.size) - 1
  {
    var p := Pow2(c.size);
    ShlIsProduct(c.position, c.size);
    WrapKeepsLowBits(Shl(c.position, c.size) - 1, c.size);
    ModShift(-1, c.position, p);
    DivModUnique(-1, p, -1, p - 1);
    LowIsRemainder(Wrap32(Shl(c.position, c.size) - 1), c.size);
  }

  /** The mask takes the low bits of first, so a channel counts up from them modulo its size. */
  lemma ChannelCounts(c: Channel, first: uint32, k: nat)
    requires c.ShiftsDefined()
    ensures ChannelValue(c, first, k) == (first + k) % Pow2(c.size)
  {
    var mask := Wrap32(Shl(c.position, c.size) - 1);
    ChannelMask(c);
    AndKeepsLowBits(first, mask, c.size);
    LowIsRemainder(And(first, mask), c.size);
    LowIsRemainder(first, c.size);
    LowOfWrapped(And(first, mask) + k, c.size);
    ModMove(And(first, mask), first, And(first, mask) + k, first + k, Pow2(c.size));
  }

  /** Counting up from a number below p agrees with counting up from n, modulo p, exactly when the
      number is n modulo p. */
  lemma SameCount(n: nat, a: nat, k: nat, p: nat)
    requires a < p
    ensures (n + k) % p == (a + k) % p <==> a == n % p
  {
    DivModUnique(a, p, 0, a);
    if (n + k) % p == (a + k) % p {
      ModMove(n + k, a + k, n, a, p);
    } else if n % p == a {
      ModMove(n, a, n + k, a + k, p);
    }
  }

  /** Counting up from the channel's own field of first is what happens exactly when that field
      equals the low bits of first. */
  lemma ChannelStartsAtItsField(c: Channel, first: uint32, k: nat)
    requires c.ShiftsDefined()
    ensures ChannelValue(c, first, k) == (Field(first, c.position, c.size) + k) % Pow2(c.size)
       <==> Field(first, c.position, c.size) == Low(first, c.size)
  {
    ChannelCounts(c, first, k);
    LowIsRemainder(first, c.size);
    LowBound(Shr(first, c.position), c.size);
    SameCount(first, Field(first, c.position, c.size), k, Pow2(c.size));
  }

  /** So an 8-bit channel at bit 16 of first = 0x00FF0000 starts at 0, although its own field is 255. */
  lemma ChannelIgnoresItsField(k: nat)
    ensures var c, first := Channel(8, 16), 0x00FF_0000;
            && c.ShiftsDefined() && Field(first, c.position, c.size) == 255
            && ChannelValue(c, first, k) == k % 256 != (Field(first, c.position, c.size) + k) % 256
  {
    var c, first := Channel(8, 16), 0x00FF_0000;
    assert Pow2(8) == 256;
    ShlIsProduct(16, 8);
    FieldOfOwn(255, 16, 8);
    ShlIsProduct(255, 16);
    Pow2Add(8, 8);
    LowIsRemainder(first, 8);
    ChannelCounts(c, first, k);
    ChannelStartsAtItsField(c, first, k);
    ModShift(k, 0xFF00, 256);
  }

  /** Storing a colour in n bytes takes it modulo 256^n. */
  lemma StoredIsRemainder(f: Format, color: nat)
    ensures Stored(f, color) == color % Pow256(f.BytesPerPixel())
  {
    ReadAfterWrite(color, f.BytesPerPixel());
  }

  lemma StoredUnchanged(f: Format, color: nat)
    requires color < Pow2(8 * f.BytesPerPixel())
    ensures Stored(f, color) == color
  {
    StoredIsRemainder(f, color);
    Pow256IsPow2(f.BytesPerPixel());
    DivModUnique(color, Pow256(f.BytesPerPixel()), 0, color);
  }

  lemma ByteStored(f: Format, v: uint8)
    requires f.Supported()
    ensures Stored(f, v) == v
  {
    Pow2Monotone(8, 8 * f.BytesPerPixel());
    assert Pow2(8) == 256;
    StoredUnchanged(f, v);
  }

  lemma LowStored(f: Format, k: nat)
    requires f.Supported()
    ensures Stored(f, Wrap32(Low(Wrap32(k), f.bitsPerPixel))) == k % Pow2(f.bitsPerPixel)
  {
    LowOfWrapped(k, f.bitsPerPixel);
    Pow2Monotone(f.bitsPerPixel, 8 * f.BytesPerPixel());
    StoredUnchanged(f, k % Pow2(f.bitsPerPixel));
  }

  lemma IndexedStored(f: Format, n: TileCount, first: uint32, step: uint8, nx: nat, ny: nat, k: nat)
    requires f.Supported() && f.mode.Indexed? && k == Times(Times(ny, n) + nx, step)
    ensures Stored(f, TileColor(f, n, first, step, nx, ny)) == (first + k) % Pow2(f.bitsPerPixel)
  {
    LowStored(f, first + k);
  }

  lemma TileSteps(n: nat, nx: nat, ny: nat, step: nat)
    ensures Times(Times(ny, n) + nx, step) == (ny * n + nx) * step
  {
    TimesIsProduct(ny, n);
    TimesIsProduct(ny * n + nx, step);
  }

  /** Indexed modes: consecutive tiles, row by row, are step palette entries apart. */
  lemma IndexedTile(f: Format, n: TileCount, first: uint32, step: uint8, nx: nat, ny: nat)
    requires f.Supported() && f.PatternDefined() && f.mode.Indexed?
    ensures Stored(f, TileColor(f, n, first, step, nx, ny)) == (first + (ny * n + nx) * step) % Pow2(f.bitsPerPixel)
  {
    TileSteps(n, nx, ny, step);
    IndexedStored(f, n, first, step, nx, ny, (ny * n + nx) * step);
  }

  /** A field of three disjoint ones put together by shifts and ors. */
  lemma FieldOfThree(a: nat, ca: Channel, b: nat, cb: Channel, c: nat, cc: Channel)
    requires a < Pow2(ca.size) && b < Pow2(cb.size) && c < Pow2(cc.size)
    requires ca.DisjointFrom(cb) && ca.DisjointFrom(cc) && cb.DisjointFrom(cc)
    ensures var v := Or(Or(Shl(a, ca.position), Shl(b, cb.position)), Shl(c, cc.position));
            && Field(v, ca.position, ca.size) == a
            && Field(v, cb.position, cb.size) == b
            && Field(v, cc.position, cc.size) == c
  {
    var x, y, z := Shl(a, ca.position), Shl(b, cb.position), Shl(c, cc.position);
    FieldOfEach(a, ca, b, cb, c, cc, ca);
    FieldOfEach(a, ca, b, cb, c, cc, cb);
    FieldOfEach(a, ca, b, cb, c, cc, cc);
    FieldOfOwn(a, ca.position, ca.size);
    FieldOfOwn(b, cb.position, cb.size);
    FieldOfOwn(c, cc.position, cc.size);
    FieldOfOther(a, ca.position, ca.size, cb.position, cb.size);
    FieldOfOther(a, ca.position, ca.size, cc.position, cc.size);
    FieldOfOther(b, cb.position, cb.size, ca.position, ca.size);
    FieldOfOther(b, cb.position, cb.size, cc.position, cc.size);
    FieldOfOther(c, cc.position, cc.size, ca.position, ca.size);
    FieldOfOther(c, cc.position, cc.size, cb.position, cb.size);
  }

  lemma FieldOfEach(a: nat, ca: Channel, b: nat, cb: Channel, c: nat, cc: Channel, d: Channel)
    ensures var x, y, z := Shl(a, ca.position), Shl(b, cb.position), Shl(c, cc.position);
            Field(Or(Or(x, y), z), d.position, d.size)
              == Or(Or(Field(x, d.position, d.size), Field(y, d.position, d.size)), Field(z, d.position, d.size))
  {
    var x, y, z := Shl(a, ca.position), Shl(b, cb.position), Shl(c, cc.position);
    FieldOfOr(Or(x, y), z, d.position, d.size);
    FieldOfOr(x, y, d.position, d.size);
  }

  predicate FitsPixel(f: Format, c: Channel) {
    c.position + c.size <= 8 * f.BytesPerPixel()
  }

  lemma ShiftFits(f: Format, c: Channel, v: nat)
    requires f.Supported() && FitsPixel(f, c) && v < Pow2(c.size)
    ensures Shl(v, c.position) < Pow2(8 * f.BytesPerPixel()) <= 0x1_0000_0000
  {
    ShlFits(v, c.position, c.size, 8 * f.BytesPerPixel());
    Pow2Monotone(8 * f.BytesPerPixel(), 32);
    Pow2At32();
  }

  /** Three channel values packed into a pixel and stored are read back from it. */
  lemma PackedFields(f: Format, red: nat, green: nat, blue: nat)
    requires f.Supported() && FitsPixel(f, f.red) && FitsPixel(f, f.green) && FitsPixel(f, f.blue)
    requires f.red.DisjointFrom(f.green) && f.red.DisjointFrom(f.blue) && f.green.DisjointFrom(f.blue)
    requires red < Pow2(f.red.size) && green < Pow2(f.green.size) && blue < Pow2(f.blue.size)
    ensures var stored := Stored(f, Pack(f, red, green, blue));
            && Field(stored, f.red.position, f.red.size) == red
            && Field(stored, f.green.position, f.green.size) == green
            && Field(stored, f.blue.position, f.blue.size) == blue
  {
    PackIsExact(f, red, green, blue);
    FieldOfThree(red, f.red, green, f.green, blue, f.blue);
  }

  lemma PackIsExact(f: Format, red: nat, green: nat, blue: nat)
    requires f.Supported() && FitsPixel(f, f.red) && FitsPixel(f, f.green) && FitsPixel(f, f.blue)
    requires red < Pow2(f.red.size) && green < Pow2(f.green.size) && blue < Pow2(f.blue.size)
    ensures Stored(f, Pack(f, red, green, blue))
         == Or(Or(Shl(red, f.red.position), Shl(green, f.green.position)), Shl(blue, f.blue.position))
  {
    ShiftFits(f, f.red, red);
    ShiftFits(f, f.green, green);
    ShiftFits(f, f.blue, blue);
    var r, g, b := Shl(red, f.red.position), Shl(green, f.green.position), Shl(blue, f.blue.position);
    OrOfThree(r, g, b, 8 * f.BytesPerPixel());
    StoredUnchanged(f, Or(Or(r, g), b));
  }

  lemma OrOfThree(x: nat, y: nat, z: nat, bits: nat)
    requires x < Pow2(bits) && y < Pow2(bits) && z < Pow2(bits) <= 0x1_0000_0000
    ensures Or(Or(x, y), z) < Pow2(bits)
    ensures Wrap32(Or(Or(Wrap32(x), Wrap32(y)), Wrap32(z))) == Or(Or(x, y), z)
  {
    WrapFits(x);
    WrapFits(y);
    WrapFits(z);
    OrFits(x, y, bits);
    var w := Or(x, y);
    OrFits(w, z, bits);
    WrapFits(Or(w, z));
  }

  lemma WrapFits(n: nat)
    requires n < 0x1_0000_0000
    ensures Wrap32(n) == n
  {
  }

  lemma ChannelBound(c: Channel, first: uint32, k: nat)
    requires c.ShiftsDefined()
    ensures ChannelValue(c, first, k) < Pow2(c.size)
  {
    ChannelCounts(c, first, k);
  }

  /** Direct-colour modes: when the three fields are disjoint and fit the pixel, the fields of a
      stored tile pixel are the three channel counters of its tile. */
  lemma DirectTile(f: Format, n: TileCount, first: uint32, step: uint8, nx: nat, ny: nat)
    requires f.Supported() && f.PatternDefined() && f.mode.Direct?
    requires f.red.DisjointFrom(f.green) && f.red.DisjointFrom(f.blue) && f.green.DisjointFrom(f.blue)
    requires FitsPixel(f, f.red) && FitsPixel(f, f.green) && FitsPixel(f, f.blue)
    ensures var stored := Stored(f, TileColor(f, n, first, step, nx, ny));
            && Field(stored, f.red.position, f.red.size) == (first + Times(nx, step)) % Pow2(f.red.size)
            && Field(stored, f.green.position, f.green.size) == (first + Times(ny, step)) % Pow2(f.green.size)
            && Field(stored, f.blue.position, f.blue.size) == (first + Times(nx + ny, step)) % Pow2(f.blue.size)
  {
    DirectFields(f, first, Times(nx, step), Times(ny, step), Times(nx + ny, step));
  }

  lemma BitOfWrapped(v: nat, i: nat)
    requires i < 32
    ensures Bit(Wrap32(v), i) <==> Bit(v, i)
  {
    Pow2At32();
    LowIsRemainder(v, 32);
    BitOfLow(v, 32, i);
  }

  lemma BitOfStored(f: Format, color: nat, i: nat)
    ensures Bit(Stored(f, color), i) <==> i < 8 * f.BytesPerPixel() && Bit(color, i)
  {
    StoredIsRemainder(f, color);
    Pow256IsPow2(f.BytesPerPixel());
    LowIsRemainder(color, 8 * f.BytesPerPixel());
    BitOfLow(color, 8 * f.BytesPerPixel(), i);
  }

  lemma BitOfShifted(v: nat, position: nat, i: nat)
    requires i < 32
    ensures Bit(Wrap32(Shl(v, position)), i) <==> i >= position && Bit(v, i - position)
  {
    BitOfWrapped(Shl(v, position), i);
    BitOfShl(v, position, i);
  }

  lemma BitOfPack(f: Format, red: nat, green: nat, blue: nat, i: nat)
    requires i < 32
    ensures Bit(Pack(f, red, green, blue), i) <==>
      || (i >= f.red.position && Bit(red, i - f.red.position))
      || (i >= f.green.position && Bit(green, i - f.green.position))
      || (i >= f.blue.position && Bit(blue, i - f.blue.position))
  {
    var r, g := Wrap32(Shl(red, f.red.position)), Wrap32(Shl(green, f.green.position));
    var b := Wrap32(Shl(blue, f.blue.position));
    BitOfWrapped(Or(Or(r, g), b), i);
    OrIsBitwise(Or(r, g), b, i);
    OrIsBitwise(r, g, i);
    BitOfShifted(red, f.red.position, i);
    BitOfShifted(green, f.green.position, i);
    BitOfShifted(blue, f.blue.position, i);
  }

  /** Bit i of a pixel is a bit of the counter of channel c. */
  predicate ChannelBit(c: Channel, counter: nat, i: nat) {
    i >= c.position && Bit(counter % Pow2(c.size), i - c.position)
  }

  /** Direct-colour modes, whatever the layout: a bit of a stored tile pixel is set exactly when one of
      the three channel counters, each at its field's position, sets it. */
  lemma DirectTileBits(f: Format, n: TileCount, first: uint32, step: uint8, nx: nat, ny: nat, i: nat)
    requires f.Supported() && f.PatternDefined() && f.mode.Direct?
    ensures Bit(Stored(f, TileColor(f, n, first, step, nx, ny)), i) <==>
      && i < 8 * f.BytesPerPixel()
      && (|| ChannelBit(f.red, first + Times(nx, step), i)
          || ChannelBit(f.green, first + Times(ny, step), i)
          || ChannelBit(f.blue, first + Times(nx + ny, step), i))
  {
    var kr, kg, kb := Times(nx, step), Times(ny, step), Times(nx + ny, step);
    BitOfStored(f, TileColor(f, n, first, step, nx, ny), i);
    if i < 8 * f.BytesPerPixel() {
      ChannelCounts(f.red, first, kr);
      ChannelCounts(f.green, first, kg);
      ChannelCounts(f.blue, first, kb);
      BitOfPack(f, ChannelValue(f.red, first, kr), ChannelValue(f.green, first, kg), ChannelValue(f.blue, first, kb), i);
    }
  }

  lemma DirectFields(f: Format, first: uint32, kr: nat, kg: nat, kb: nat)
    requires f.Supported() && f.PatternDefined() && f.mode.Direct?
    requires f.red.DisjointFrom(f.green) && f.red.DisjointFrom(f.blue) && f.green.DisjointFrom(f.blue)
    requires FitsPixel(f, f.red) && FitsPixel(f, f.green) && FitsPixel(f, f.blue)
    ensures var stored := Stored(f, DirectColor(f, first, kr, kg, kb));
            && Field(stored, f.red.position, f.red.size) == (first + kr) % Pow2(f.red.size)
            && Field(stored, f.green.position, f.green.size) == (first + kg) % Pow2(f.green.size)
            && Field(stored, f.blue.position, f.blue.size) == (first + kb) % Pow2(f.blue.size)
  {
    ChannelBound(f.red, first, kr);
    ChannelBound(f.green, first, kg);
    ChannelBound(f.blue, first, kb);
    PackedFields(f, ChannelValue(f.red, first, kr), ChannelValue(f.green, first, kg), ChannelValue(f.blue, first, kb));
    ChannelCounts(f.red, first, kr);
    ChannelCounts(f.green, first, kg);
    ChannelCounts(f.blue, first, kb);
  }
}
