/** The program's machine integers. An enum without negative members is unsigned, as common
    compilers make it, and an int compared with it is converted. */
module Integers {

  type Int32 = x: int | -0x8000_0000 <= x < 0x8000_0000

  type Uint32 = x: int | 0 <= x < 0x1_0000_0000

  /** Two's complement truncation to 32 bits. */
  function Wrap32(x: int): Int32 {
    (x + 0x8000_0000) % 0x1_0000_0000 - 0x8000_0000
  }

  /** A signed integer converted to unsigned. */
  function Unsigned32(x: int): Uint32 {
    x % 0x1_0000_0000
  }

  lemma Wrap32Sign(d: int)
    requires -0x1_0000_0000 < d < 0x1_0000_0000
    ensures Wrap32(d) == if d < -0x8000_0000 then d + 0x1_0000_0000
                         else if d < 0x8000_0000 then d else d - 0x1_0000_0000
  {
  }

  lemma Unsigned32Of(x: Int32)
    ensures Unsigned32(x) == if x < 0 then x + 0x1_0000_0000 else x
  {
  }
}
