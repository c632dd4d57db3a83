/** Two inline helpers of the PWM driver (src/machine_x/extras.go). */
module Extras {
  import opened Base

  /** `boolToBit`: 1 for true, 0 for false. */
  function BoolToBit(a: bool): (r: u32)
    ensures r <= 1
    ensures r == 1 <==> a
  {
    if a then 1 else 0
  }

  /** `u32max`: the larger of the two words. */
  function U32Max(a: u32, b: u32): (r: u32)
    ensures r >= a && r >= b
    ensures r == a || r == b
  {
    if a > b then a else b
  }
}
