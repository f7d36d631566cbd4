/** Powers of two, shared by the marker masks, the channel mask and the
    bit-packed fields of the SDT file. */
module Bits {

  function Pow2(n: nat): (r: nat)
    ensures r > 0
  {
    if n == 0 then 1 else 2 * Pow2(n - 1)
  }
}
