/** Unsigned 128-bit amounts whose operations report overflow and underflow. */
module Uint128 {
  import opened Options
  import opened Errors

  const LIMIT: int := 0x1_0000_0000_0000_0000_0000_0000_0000_0000

  type Amount = x: int | 0 <= x < LIMIT

  /** The result of an exact computation, if it is a 128-bit amount. */
  function Checked(x: int): Result<Amount> {
    if x < 0 then Err(Underflow) else if x >= LIMIT then Err(Overflow) else Ok(x)
  }

  function Add(a: Amount, b: Amount): Result<Amount> { Checked(a + b) }

  function Sub(a: Amount, b: Amount): Result<Amount> { Checked(a - b) }

  function Mul(a: Amount, b: Amount): Result<Amount> { Checked(a * b) }

  /** Multiplication with a fraction, rounded down. */
  function MulWithRat(a: Amount, num: nat, denom: nat): Result<Amount>
    requires denom > 0
  {
    Checked(a * num / denom)
  }
}
