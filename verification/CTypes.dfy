/** The C integer widths the modelled code computes with, and their conversions. */
module CTypes {

  type uint8 = n: int | 0 <= n < 0x100
  type uint16 = n: int | 0 <= n < 0x1_0000
  type uint32 = n: int | 0 <= n < 0x1_0000_0000

  /** Conversion of an int to uint16_t. */
  function Wrap16(n: int): uint16 {
    n % 0x1_0000
  }

  /** Wrapping before a step changes nothing once the result is wrapped. */
  lemma WrapMoves(n: int, d: int)
    ensures Wrap16(Wrap16(n) + d) == Wrap16(n + d)
  {
  }

  /** (c - x) mod 2^16: how far c lies ahead of x on the uint16_t circle. */
  function Ahead(c: uint16, x: uint16): uint16 {
    if c >= x then c - x else c - x + 0x1_0000
  }

  lemma AheadIsWrapped(c: uint16, x: uint16)
    ensures Ahead(c, x) == Wrap16(c - x)
  {
  }

  /** c is n steps ahead of x exactly when x + n wraps to c. */
  lemma StepsAhead(c: uint16, x: uint16, n: uint16)
    ensures Ahead(c, x) == n <==> c == Wrap16(x + n)
  {
  }

  /** Conversion of an int to uint32_t. */
  function Wrap32(n: int): uint32 {
    n % 0x1_0000_0000
  }
}
