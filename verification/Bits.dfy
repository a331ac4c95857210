/** Bitwise operations on unsigned words and the little-endian layout of a word in memory. */
module Bits {
  import opened CTypes
  import opened Arithmetic

  function And(a: nat, b: nat): nat {
    if a == 0 || b == 0 then 0
    else 2 * And(a / 2, b / 2) + (if a % 2 == 1 && b % 2 == 1 then 1 else 0)
  }

  function Or(a: nat, b: nat): nat {
    if a == 0 then b else if b == 0 then a
    else 2 * Or(a / 2, b / 2) + (if a % 2 == 1 || b % 2 == 1 then 1 else 0)
  }

  /** v << n, before any truncation. */
  function Shl(v: nat, n: nat): nat {
    if n == 0 then v else 2 * Shl(v, n - 1)
  }

  /** v >> n. */
  function Shr(v: nat, n: nat): nat {
    if n == 0 then v else Shr(v / 2, n - 1)
  }

  /** The n low bits of v. */
  function Low(v: nat, n: nat): nat {
    if n == 0 then 0 else v % 2 + 2 * Low(v / 2, n - 1)
  }

  /** The size bits of v that start at bit position. */
  function Field(v: nat, position: nat, size: nat): nat {
    Low(Shr(v, position), size)
  }

  predicate Bit(v: nat, i: nat) {
    Shr(v, i) % 2 == 1
  }

  lemma {:induction false} ShlIsProduct(v: nat, n: nat)
    ensures Shl(v, n) == v * Pow2(n)
  {
    if n > 0 {
      ShlIsProduct(v, n - 1);
      assert v * (2 * Pow2(n - 1)) == 2 * (v * Pow2(n - 1));
    }
  }

  lemma {:induction false} ShrIsQuotient(v: nat, n: nat)
    ensures Shr(v, n) == v / Pow2(n)
  {
    if n > 0 {
      ShrIsQuotient(v / 2, n - 1);
      DivModProduct(v, 2, Pow2(n - 1));
    }
  }

  lemma {:induction false} LowIsRemainder(v: nat, n: nat)
    ensures Low(v, n) == v % Pow2(n)
  {
    if n > 0 {
      LowIsRemainder(v / 2, n - 1);
      DivModProduct(v, 2, Pow2(n - 1));
    }
  }

  lemma {:induction false} ZeroHasNoBits(n: nat)
    ensures Shr(0, n) == 0 && Low(0, n) == 0
  {
    if n > 0 {
      ZeroHasNoBits(n - 1);
    }
  }

  lemma {:induction false} AndIsBitwise(a: nat, b: nat, i: nat)
    ensures Bit(And(a, b), i) <==> Bit(a, i) && Bit(b, i)
  {
    ZeroHasNoBits(i);
    if a != 0 && b != 0 && i > 0 {
      AndIsBitwise(a / 2, b / 2, i - 1);
    }
  }

  lemma {:induction false} OrIsBitwise(a: nat, b: nat, i: nat)
    ensures Bit(Or(a, b), i) <==> Bit(a, i) || Bit(b, i)
  {
    ZeroHasNoBits(i);
    if a != 0 && b != 0 && i > 0 {
      OrIsBitwise(a / 2, b / 2, i - 1);
    }
  }

  lemma {:induction false} BitOfLow(v: nat, n: nat, i: nat)
    ensures Bit(Low(v, n), i) <==> i < n && Bit(v, i)
  {
    if n == 0 {
      ZeroHasNoBits(i);
    } else if i > 0 {
      BitOfLow(v / 2, n - 1, i - 1);
      assert Low(v, n) / 2 == Low(v / 2, n - 1);
    }
  }

  lemma BitOfShl(v: nat, n: nat, i: nat)
    ensures Bit(Shl(v, n), i) <==> i >= n && Bit(v, i - n)
  {
    ShiftBack(v, n, i);
  }

  /** A mask whose low bits are all ones keeps the low bits. */
  lemma {:induction false} AndKeepsLowBits(a: nat, mask: nat, size: nat)
    requires Low(mask, size) == Pow2(size) - 1
    ensures Low(And(a, mask), size) == Low(a, size)
  {
    ZeroHasNoBits(size);
    if size > 0 {
      LowBound(mask / 2, size - 1);
      if a != 0 {
        AndKeepsLowBits(a / 2, mask / 2, size - 1);
      }
    }
  }

  lemma {:induction false} LowBound(v: nat, n: nat)
    ensures Low(v, n) < Pow2(n) && Low(v, n) <= v
  {
    if n > 0 {
      LowBound(v / 2, n - 1);
    }
  }

  lemma {:induction false} ShrOfOr(a: nat, b: nat, n: nat)
    ensures Shr(Or(a, b), n) == Or(Shr(a, n), Shr(b, n))
  {
    ZeroHasNoBits(n);
    if a != 0 && b != 0 && n > 0 {
      ShrOfOr(a / 2, b / 2, n - 1);
    }
  }

  lemma OrOfParts(a0: nat, a1: nat, b0: nat, b1: nat)
    requires a0 < 2 && b0 < 2
    ensures Or(a0 + 2 * a1, b0 + 2 * b1) == (if a0 == 1 || b0 == 1 then 1 else 0) + 2 * Or(a1, b1)
  {
    assert (a0 + 2 * a1) / 2 == a1 && (b0 + 2 * b1) / 2 == b1;
  }

  lemma {:induction false} LowOfOr(a: nat, b: nat, n: nat)
    ensures Low(Or(a, b), n) == Or(Low(a, n), Low(b, n))
  {
    ZeroHasNoBits(n);
    if a != 0 && b != 0 && n > 0 {
      LowOfOr(a / 2, b / 2, n - 1);
      assert Or(a, b) / 2 == Or(a / 2, b / 2);
      OrOfParts(a % 2, Low(a / 2, n - 1), b % 2, Low(b / 2, n - 1));
    }
  }

  lemma FieldOfOr(a: nat, b: nat, position: nat, size: nat)
    ensures Field(Or(a, b), position, size) == Or(Field(a, position, size), Field(b, position, size))
  {
    ShrOfOr(a, b, position);
    LowOfOr(Shr(a, position), Shr(b, position), size);
  }

  /** Exactly the values below 2^n fit in n bits. */
  lemma {:induction false} FitsIn(v: nat, n: nat)
    ensures v < Pow2(n) <==> Shr(v, n) == 0
    ensures v < Pow2(n) <==> Low(v, n) == v
  {
    if n > 0 {
      FitsIn(v / 2, n - 1);
    }
  }

  lemma {:induction false} ShiftBack(v: nat, n: nat, m: nat)
    ensures n <= m ==> Shr(Shl(v, n), m) == Shr(v, m - n)
    ensures n >= m ==> Shr(Shl(v, n), m) == Shl(v, n - m)
  {
    if n > 0 && m > 0 {
      ShiftBack(v, n - 1, m - 1);
    }
  }

  lemma {:induction false} ShiftClearsLow(v: nat, n: nat, m: nat)
    requires m <= n
    ensures Low(Shl(v, n), m) == 0
  {
    if m > 0 {
      ShiftClearsLow(v, n - 1, m - 1);
    }
  }

  lemma {:induction false} ShrMore(v: nat, n: nat, m: nat)
    requires n <= m && Shr(v, n) == 0
    ensures Shr(v, m) == 0
  {
    if n == 0 {
      ZeroHasNoBits(m);
    } else {
      ShrMore(v / 2, n - 1, m - 1);
    }
  }

  /** A value shifted into its own field is read back from it. */
  lemma FieldOfOwn(v: nat, position: nat, size: nat)
    requires v < Pow2(size)
    ensures Field(Shl(v, position), position, size) == v
  {
    ShiftBack(v, position, position);
    FitsIn(v, size);
  }

  /** Nothing of it is seen through a field that does not overlap. */
  lemma FieldOfOther(v: nat, position: nat, size: nat, position': nat, size': nat)
    requires v < Pow2(size)
    requires position + size <= position' || position' + size' <= position
    ensures Field(Shl(v, position), position', size') == 0
  {
    ShiftBack(v, position, position');
    if position + size <= position' {
      FitsIn(v, size);
      ShrMore(v, size, position' - position);
      ZeroHasNoBits(size');
    } else {
      ShiftClearsLow(v, position - position', size');
    }
  }

  lemma {:induction false} OrFits(a: nat, b: nat, n: nat)
    requires a < Pow2(n) && b < Pow2(n)
    ensures Or(a, b) < Pow2(n)
  {
    if a != 0 && b != 0 {
      OrFits(a / 2, b / 2, n - 1);
    }
  }

  lemma ShlFits(v: nat, position: nat, size: nat, n: nat)
    requires v < Pow2(size) && position + size <= n
    ensures Shl(v, position) < Pow2(n)
  {
    ShlIsProduct(v, position);
    MulMonotone(v + 1, Pow2(size), Pow2(position));
    Pow2Add(size, position);
    Pow2Monotone(position + size, n);
  }

  // Little-endian memory layout.

  function WriteLE(v: nat, n: nat): (s: seq<uint8>)
    ensures |s| == n
  {
    if n == 0 then [] else [v % 256] + WriteLE(v / 256, n - 1)
  }

  function ReadLE(s: seq<uint8>): nat {
    if s == [] then 0 else s[0] + 256 * ReadLE(s[1..])
  }

  lemma {:induction false} ReadAfterWrite(v: nat, n: nat)
    ensures ReadLE(WriteLE(v, n)) == v % Pow256(n)
  {
    if n > 0 {
      ReadAfterWrite(v / 256, n - 1);
      DivModProduct(v, 256, Pow256(n - 1));
      assert WriteLE(v, n)[1..] == WriteLE(v / 256, n - 1);
    }
  }

  lemma {:induction false} WriteAfterRead(s: seq<uint8>)
    ensures WriteLE(ReadLE(s), |s|) == s
    ensures ReadLE(s) < Pow256(|s|)
  {
    if s != [] {
      WriteAfterRead(s[1..]);
      assert ReadLE(s) / 256 == ReadLE(s[1..]) && ReadLE(s) % 256 == s[0];
    }
  }

  /** Byte k of a word, least significant first. */
  lemma {:induction false} ByteOfWord(v: nat, n: nat, k: nat)
    requires k < n
    ensures WriteLE(v, n)[k] == (v / Pow256(k)) % 256
  {
    if k > 0 {
      ByteOfWord(v / 256, n - 1, k - 1);
      DivModProduct(v, 256, Pow256(k - 1));
    }
  }

  /** The first bytes of a word are its low-order bytes. */
  lemma {:induction false} WritePrefix(v: nat, n: nat, m: nat)
    requires n <= m
    ensures WriteLE(v, m)[..n] == WriteLE(v, n)
  {
    if n > 0 {
      WritePrefix(v / 256, n - 1, m - 1);
      assert WriteLE(v, m)[..n] == [v % 256] + WriteLE(v / 256, m - 1)[..n - 1];
    }
  }
}
