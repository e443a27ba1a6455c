/** 64-bit integers, whose arithmetic wraps around. */
module Words {

  const TWO_63 := 0x8000_0000_0000_0000
  const TWO_64 := 0x1_0000_0000_0000_0000

  /** Conversion to an unsigned and to a signed 64-bit integer. */
  function U64(x: int): nat {
    x % TWO_64
  }

  function I64(x: int): int {
    if x % TWO_64 < TWO_63 then x % TWO_64 else x % TWO_64 - TWO_64
  }

  lemma Wraps(x: int)
    requires -TWO_64 <= x < 2 * TWO_64
    ensures U64(x) == if x < 0 then x + TWO_64 else if x < TWO_64 then x else x - TWO_64
  {
  }

  lemma Signed(x: int)
    requires -TWO_63 <= x < TWO_63
    ensures I64(x) == x && I64(U64(x)) == x
  {
  }

  /** Wrapping around early or late makes no difference. */
  lemma WrapsLate(x: int, d: int)
    ensures U64(U64(x) + d) == U64(x + d)
  {
  }
}
