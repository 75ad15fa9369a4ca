/** Go's fixed-width unsigned integers and the wrap-around of their arithmetic. */
module GoInt {
  const U8_MODULUS: int := 0x100
  const U32_MODULUS: int := 0x1_0000_0000

  type uint8 = x: int | 0 <= x < 0x100
  type uint32 = x: int | 0 <= x < 0x1_0000_0000

  /** `a + b` on two Go uint32 values: the sum wraps around past 2^32 - 1. */
  function Add32(a: uint32, b: uint32): (r: uint32)
    ensures a + b < U32_MODULUS ==> r == a + b
    ensures a + b >= U32_MODULUS ==> r == a + b - U32_MODULUS && r < a && r < b
  {
    (a + b) % U32_MODULUS
  }

  /** `x++` on a Go uint8: 255 wraps to 0. */
  function Inc8(x: uint8): (r: uint8)
    ensures x < 255 ==> r == x + 1
    ensures x == 255 ==> r == 0
  {
    (x + 1) % U8_MODULUS
  }

  /** `x--` on a Go uint8: 0 wraps to 255. */
  function Dec8(x: uint8): (r: uint8)
    ensures x > 0 ==> r == x - 1
    ensures x == 0 ==> r == 255
  {
    (x + 255) % U8_MODULUS
  }

  /** `uint32(n)` for a non-negative Go int: keeps the low 32 bits. */
  function TruncTo32(n: nat): (r: uint32)
    ensures n < U32_MODULUS ==> r == n
    ensures r <= n
  {
    n % U32_MODULUS
  }

  /** A decrement undoes an increment, whatever the value, wrap-around included. */
  lemma DecUndoesInc(x: uint8)
    ensures Dec8(Inc8(x)) == x
  {
  }

  /** Incrementing `a mod 256` gives `(a + 1) mod 256`. */
  lemma IncOfMod(a: int)
    requires a >= 0
    ensures Inc8(a % U8_MODULUS) == (a + 1) % U8_MODULUS
  {
  }

  /** Decrementing `(a + 1) mod 256` gives `a mod 256`. */
  lemma DecOfMod(a: int)
    requires a >= 0
    ensures Dec8((a + 1) % U8_MODULUS) == a % U8_MODULUS
  {
  }
}
